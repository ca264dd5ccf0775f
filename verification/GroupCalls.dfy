/**
What each call on a group needs of its rows and leaves in them, column by column: when it succeeds, what it writes
and charges, and how it fails otherwise.
*/
module GroupCalls {
  import opened Results
  import opened ReservationState
  import opened Tables
  import opened Trust
  import opened Transactions
  import opened LedgerInvariant
  import opened GroupTransitions
  import opened Runs
  import opened RowEffects
  import opened Accounts
  import opened Capacity

  /** The group of row `id` is in one of these states. */
  predicate InState(rows: seq<Row>, id: int, states: set<State>) {
    1 <= id <= |rows| && rows[id - 1].state in states
  }

  /** The rows of the group hold these three columns now, and nothing else of any row
      has changed. */
  predicate Writes(rows: seq<Row>, after: seq<Row>, id: int, state: State, settled: Option<int>, name: Option<string>)
    requires 1 <= id <= |rows|
  {
    && |after| == |rows|
    && forall i | 0 <= i < |rows| ::
         after[i] == if rows[i].root == rows[id - 1].root
                     then rows[i].(state := state, settled := settled, responseId := name) else rows[i]
  }

  /** Each row of the group gives up its liability in its own pool and epoch, and is
      charged there; no other counter changes. */
  predicate Charges(db: Tables, after: Tables, id: int, charge: int)
    requires 1 <= id <= |db.rows|
  {
    && after.pools.Keys == db.pools.Keys
    && forall key | key in db.pools ::
         after.pools[key] ==
         if GroupIn(db.rows, id, key)
         then db.pools[key].(reserved := db.pools[key].reserved - db.rows[id - 1].liability,
                             consumed := db.pools[key].consumed + charge)
         else db.pools[key]
  }

  predicate GroupIn(rows: seq<Row>, id: int, key: Key)
    requires 1 <= id <= |rows|
  {
    exists i | 0 <= i < |rows| :: rows[i].root == rows[id - 1].root && (rows[i].pool, rows[i].epoch) == key
  }

  /** The call named a group that is not there, or one in the wrong state for reaching
      `target`; nothing has changed. */
  predicate Refuses(w: World, c: Command, id: int, target: State) {
    && Do(w, c) == w
    && Outcome(w, c) == Some(if 1 <= id <= |w.db.rows|
                             then LedgerError.IllegalTransition(w.db.rows[id - 1].root, w.db.rows[id - 1].state, target)
                             else LedgerError.NotFound(id))
  }

  // ---------------------------------------------------------------------
  // Relabelling.

  lemma HeadShape(rows: seq<Row>, current: int, i: nat, id: int)
    requires RowsOk(rows, current) && i < |rows| && 1 <= id <= |rows| && rows[i].root == rows[id - 1].root
    ensures Shape(rows[i]) && rows[i] == rows[id - 1].(id := i + 1, epoch := rows[i].epoch)
  {
    assert Placed(rows, i, current);
    SameGroup(rows, i, id - 1, current);
  }

  lemma RelabelWrites(db: Tables, id: int, t: Transition, response: Option<string>)
    requires Valid(db) && InState(db.rows, id, {Dispatching}) && (t.AttachResponseId? || t.MarkIdUnknown?)
    requires t.AttachResponseId? <==> response.Some?
    requires RelabelGroup(db, id, t, response).Success?
    ensures Writes(db.rows, RelabelGroup(db, id, t, response).value.rows, id,
                   if t.AttachResponseId? then DispatchedWithId else DispatchedIdUnknown, None, response)
  {
    RelabelSound(db, id, t, response);
    forall i: nat | i < |db.rows| && db.rows[i].root == db.rows[id - 1].root
      ensures db.rows[i].settled.None? && db.rows[i].responseId.None?
    {
      HeadShape(db.rows, db.meta.currentEpoch, i, id);
    }
  }

  /** Attaching a response id, and giving up on learning one: only in mid-dispatch. Every row
      of the group then holds the id that was given, or none. */
  lemma RelabelExactly(db: Tables, id: int, t: Transition, response: Option<string>)
    requires Valid(db) && (t.AttachResponseId? || t.MarkIdUnknown?)
    requires t.AttachResponseId? <==> response.Some?
    ensures var target := if t.AttachResponseId? then DispatchedWithId else DispatchedIdUnknown;
            var r := RelabelGroup(db, id, t, response);
            if InState(db.rows, id, {Dispatching})
            then && r.Success? && r.value == db.(rows := r.value.rows)
                 && Writes(db.rows, r.value.rows, id, target, None, response) == true
            else r == Failure(Fault(db.rows, id, target))
  {
    RelabelSound(db, id, t, response);
    EligibleExactly(db.rows, id, t, db.meta.currentEpoch);
    if InState(db.rows, id, {Dispatching}) {
      RelabelWrites(db, id, t, response);
    }
  }

  /** The same for the calls of a run. */
  lemma AttachExactly(w: World, id: int, name: string)
    requires Sane(w)
    ensures var c := Attach(id, name);
            if InState(w.db.rows, id, {Dispatching})
            then Succeeds(w, c) && Writes(w.db.rows, Do(w, c).db.rows, id, DispatchedWithId, None, Some(name))
                && Do(w, c) == w.(db := w.db.(rows := Do(w, c).db.rows))
            else Refuses(w, c, id, DispatchedWithId)
  {
    RelabelExactly(w.db, id, AttachResponseId, Some(name));
  }

  lemma LoseIdExactly(w: World, id: int)
    requires Sane(w)
    ensures var c := LoseId(id);
            if InState(w.db.rows, id, {Dispatching})
            then Succeeds(w, c) && Writes(w.db.rows, Do(w, c).db.rows, id, DispatchedIdUnknown, None, None)
                && Do(w, c) == w.(db := w.db.(rows := Do(w, c).db.rows))
            else Refuses(w, c, id, DispatchedIdUnknown)
  {
    RelabelExactly(w.db, id, MarkIdUnknown, None);
  }

  // ---------------------------------------------------------------------
  // Finishing.

  lemma {:induction false} ReleaseAdjusts(pools: map<Key, Counters>, rows: seq<Row>, charge: int)
    requires DistinctKeys(rows) && ReleaseRows(pools, rows, charge).Success?
    ensures var after := ReleaseRows(pools, rows, charge).value;
            && after.Keys == pools.Keys
            && (forall r | r in rows :: (r.pool, r.epoch) in pools)
            && (forall r | r in rows ::
                  after[(r.pool, r.epoch)] ==
                  pools[(r.pool, r.epoch)].(reserved := pools[(r.pool, r.epoch)].reserved - r.liability,
                                            consumed := pools[(r.pool, r.epoch)].consumed + charge))
            && (forall key | key in pools && (forall r | r in rows :: (r.pool, r.epoch) != key) ::
                  after[key] == pools[key])
  {
    if |rows| != 0 {
      var r, rest := rows[0], rows[1..];
      assert rows == [r] + rest;
      var next := AdjustPool(pools, (r.pool, r.epoch), -r.liability, charge).value;
      assert DistinctKeys(rest) by {
        assert forall i | 0 <= i < |rest| :: rest[i] == rows[i + 1];
      }
      ReleaseAdjusts(next, rest, charge);
      forall x | x in rest ensures (x.pool, x.epoch) != (r.pool, r.epoch) {
        var i :| 0 <= i < |rest| && rest[i] == x;
        assert rows[i + 1] == x;
      }
    }
  }

  /** A finished group: its columns, its counters, and inputs, position and everything
      outside the tables as they were. */
  predicate Finishes(w: World, c: Command, id: int, state: State, settled: Option<int>, charge: int)
    requires 1 <= id <= |w.db.rows|
  {
    Commits(w.db, Do(w, c).db, id, state, settled, charge) && Do(w, c) == w.(db := Do(w, c).db)
  }

  lemma FinishIs(db: Tables, id: int, t: Transition, p: Patch, charge: int)
    requires Valid(db) && Admits(db.rows, id, t) && p.Finish? && Eligible(db.rows, id, t).Success?
    requires FinishGroup(db, Eligible(db.rows, id, t).value, p.target, charge, p.settled).Success?
    ensures var group := GroupOf(db.rows, db.rows[id - 1].root);
            var after := FinishGroup(db, Eligible(db.rows, id, t).value, p.target, charge, p.settled).value;
            && ReleaseRows(db.pools, group, charge) == Success(after.pools)
            && after.rows == Update(db.rows, Selector(Some(db.rows[id - 1].root), db.rows[id - 1].state), p)
            && after == db.(rows := after.rows, pools := after.pools)
  {
    EligibleIsGroup(db.rows, id, t, db.meta.currentEpoch);
    GroupMembers(db.rows, db.rows[id - 1].root);
  }

  lemma FinishRows(rows: seq<Row>, current: int, id: int, p: Patch)
    requires RowsOk(rows, current) && 1 <= id <= |rows| && p.Finish?
    ensures Writes(rows, Update(rows, Selector(Some(rows[id - 1].root), rows[id - 1].state), p), id,
                   p.target, p.settled, rows[id - 1].responseId)
  {
    forall i: nat | i < |rows| && rows[i].root == rows[id - 1].root
      ensures rows[i].state == rows[id - 1].state && rows[i].responseId == rows[id - 1].responseId
    {
      HeadShape(rows, current, i, id);
    }
  }

  lemma FinishCharges(db: Tables, id: int, charge: int, after: Tables)
    requires Valid(db) && 1 <= id <= |db.rows|
    requires ReleaseRows(db.pools, GroupOf(db.rows, db.rows[id - 1].root), charge) == Success(after.pools)
    ensures Charges(db, after, id, charge)
  {
    var rows, group := db.rows, GroupOf(db.rows, db.rows[id - 1].root);
    GroupMembers(rows, rows[id - 1].root);
    GroupAscends(rows, rows[id - 1].root);
    ReleaseAdjusts(db.pools, group, charge);
    forall r | r in group ensures r.liability == rows[id - 1].liability {
      var i :| 0 <= i < |rows| && rows[i] == r;
      HeadShape(rows, db.meta.currentEpoch, i, id);
    }
    ChargesOf(db, after, id, group, charge);
  }

  lemma FinishWrites(db: Tables, id: int, t: Transition, p: Patch, charge: int)
    requires Valid(db) && Admits(db.rows, id, t) && p.Finish? && Eligible(db.rows, id, t).Success?
    requires FinishGroup(db, Eligible(db.rows, id, t).value, p.target, charge, p.settled).Success?
    ensures var after := FinishGroup(db, Eligible(db.rows, id, t).value, p.target, charge, p.settled).value;
            && Writes(db.rows, after.rows, id, p.target, p.settled, db.rows[id - 1].responseId) == true
            && Charges(db, after, id, charge) == true
            && after == db.(rows := after.rows, pools := after.pools)
  {
    FinishIs(db, id, t, p, charge);
    FinishRows(db.rows, db.meta.currentEpoch, id, p);
    FinishCharges(db, id, charge,
                  FinishGroup(db, Eligible(db.rows, id, t).value, p.target, charge, p.settled).value);
  }

  lemma ChargesOf(db: Tables, after: Tables, id: int, group: seq<Row>, charge: int)
    requires 1 <= id <= |db.rows| && after.pools.Keys == db.pools.Keys
    requires forall r :: r in group <==> r in db.rows && r.root == db.rows[id - 1].root
    requires forall r | r in group :: r.liability == db.rows[id - 1].liability && (r.pool, r.epoch) in db.pools
    requires forall r | r in group ::
               var key := (r.pool, r.epoch);
               after.pools[key] == db.pools[key].(reserved := db.pools[key].reserved - r.liability,
                                                  consumed := db.pools[key].consumed + charge)
    requires forall key | key in db.pools && (forall r | r in group :: (r.pool, r.epoch) != key) ::
               after.pools[key] == db.pools[key]
    ensures Charges(db, after, id, charge)
  {
    forall key | key in db.pools ensures after.pools[key] ==
      if GroupIn(db.rows, id, key)
      then db.pools[key].(reserved := db.pools[key].reserved - db.rows[id - 1].liability,
                          consumed := db.pools[key].consumed + charge)
      else db.pools[key]
    {
      if GroupIn(db.rows, id, key) {
        var i :| 0 <= i < |db.rows| && db.rows[i].root == db.rows[id - 1].root
            && (db.rows[i].pool, db.rows[i].epoch) == key;
        assert db.rows[i] in group;
      } else {
        forall r | r in group ensures (r.pool, r.epoch) != key {
          var i :| 0 <= i < |db.rows| && db.rows[i] == r;
        }
      }
    }
  }

  /** A counter the group would be charged in cannot take it. */
  predicate Overfull(db: Tables, id: int, charge: int)
    requires 1 <= id <= |db.rows|
  {
    exists key | key in db.pools :: GroupIn(db.rows, id, key) && db.pools[key].consumed + charge > I64_MAX
  }

  lemma RoomOrOverfull(db: Tables, id: int, charge: int)
    requires Valid(db) && 1 <= id <= |db.rows|
    ensures GroupHasRoom(db.rows, db.pools, id, charge) <==> !Overfull(db, id, charge)
  {
    forall i | 0 <= i < |db.rows| && db.rows[i].root == db.rows[id - 1].root
      ensures (db.rows[i].pool, db.rows[i].epoch) in db.pools
          && GroupIn(db.rows, id, (db.rows[i].pool, db.rows[i].epoch)) {}
    if Overfull(db, id, charge) {
      var key :| key in db.pools && GroupIn(db.rows, id, key) && db.pools[key].consumed + charge > I64_MAX;
      var i :| 0 <= i < |db.rows| && db.rows[i].root == db.rows[id - 1].root
          && (db.rows[i].pool, db.rows[i].epoch) == key;
      assert !HasRoom(db.pools, db.rows[i], charge);
    }
  }

  predicate Overflows(w: World, c: Command) {
    Do(w, c) == w && Outcome(w, c) == Some(LedgerError.Overflow)
  }

  /** The error for a group that is not there or not in a state to reach `target`. */
  function Fault(rows: seq<Row>, id: int, target: State): LedgerError {
    if 1 <= id <= |rows| then LedgerError.IllegalTransition(rows[id - 1].root, rows[id - 1].state, target)
    else LedgerError.NotFound(id)
  }

  /** What a finishing transaction commits: the columns and the counters. */
  predicate Commits(db: Tables, after: Tables, id: int, state: State, settled: Option<int>, charge: int)
    requires 1 <= id <= |db.rows|
  {
    && Writes(db.rows, after.rows, id, state, settled, db.rows[id - 1].responseId)
    && Charges(db, after, id, charge)
    && after.safety == db.safety && after.meta == db.meta
  }

  lemma WriteOffRefused(db: Tables, id: int)
    requires Valid(db) && !InState(db.rows, id, {Dispatching, DispatchedWithId, DispatchedIdUnknown})
    ensures WriteOff(db, id) == Failure(Fault(db.rows, id, ConsumedUnrecoverable))
  {
    EligibleExactly(db.rows, id, Unrecoverable, db.meta.currentEpoch);
  }

  lemma WriteOffCommits(db: Tables, id: int)
    requires Valid(db) && InState(db.rows, id, {Dispatching, DispatchedWithId, DispatchedIdUnknown})
    ensures var liability := db.rows[id - 1].liability;
            && (Overfull(db, id, liability) ==> WriteOff(db, id) == Failure(LedgerError.Overflow))
            && (!Overfull(db, id, liability) ==>
                  && WriteOff(db, id).Success?
                  && Commits(db, WriteOff(db, id).value, id, ConsumedUnrecoverable, None, liability) == true
                  && WriteOff(db, id).value.latches == db.latches)
  {
    var liability := db.rows[id - 1].liability;
    WriteOffSound(db, id);
    WriteOffSucceeds(db, id);
    RoomOrOverfull(db, id, liability);
    EligibleIsGroup(db.rows, id, Unrecoverable, db.meta.currentEpoch);
    if WriteOff(db, id).Success? {
      FinishWrites(db, id, Unrecoverable, Finish(ConsumedUnrecoverable, None), liability);
    }
  }

  lemma WriteOffExactly(db: Tables, id: int)
    requires Valid(db)
    ensures var r := WriteOff(db, id);
            if !InState(db.rows, id, {Dispatching, DispatchedWithId, DispatchedIdUnknown}) then
              r == Failure(Fault(db.rows, id, ConsumedUnrecoverable))
            else if Overfull(db, id, db.rows[id - 1].liability) then r == Failure(LedgerError.Overflow)
            else
              && r.Success?
              && Commits(db, r.value, id, ConsumedUnrecoverable, None, db.rows[id - 1].liability) == true
              && r.value.latches == db.latches
  {
    if InState(db.rows, id, {Dispatching, DispatchedWithId, DispatchedIdUnknown}) {
      WriteOffCommits(db, id);
    } else {
      WriteOffRefused(db, id);
    }
  }

  /** Writing off: from any of the three states in which a request may have been sent,
      an unknown id included. Each row is charged its whole liability. */
  lemma GiveUpExactly(w: World, id: int)
    requires Sane(w)
    ensures var c := GiveUp(id);
            if !InState(w.db.rows, id, {Dispatching, DispatchedWithId, DispatchedIdUnknown}) then
              Refuses(w, c, id, ConsumedUnrecoverable)
            else if Overfull(w.db, id, w.db.rows[id - 1].liability) then Overflows(w, c)
            else Succeeds(w, c) && Finishes(w, c, id, ConsumedUnrecoverable, None, w.db.rows[id - 1].liability)
  {
    if !InState(w.db.rows, id, {Dispatching, DispatchedWithId, DispatchedIdUnknown}) {
      WriteOffRefused(w.db, id);
    } else {
      WriteOffCommits(w.db, id);
    }
  }

  lemma ReleaseRefused(db: Tables, id: int, t: Transition)
    requires Valid(db) && (t.ReleaseUnsent? || t.RejectBeforeProcessing?)
    requires !InState(db.rows, id, if t.ReleaseUnsent? then {Reserved} else {Dispatching})
    ensures Release(db, id, t) ==
            Failure(Fault(db.rows, id, if t.ReleaseUnsent? then ReleasedUnsent else RejectedBeforeProcessing))
  {
    EligibleExactly(db.rows, id, t, db.meta.currentEpoch);
  }

  lemma ReleaseCommits(db: Tables, id: int, t: Transition)
    requires Valid(db) && (t.ReleaseUnsent? || t.RejectBeforeProcessing?)
    requires InState(db.rows, id, if t.ReleaseUnsent? then {Reserved} else {Dispatching})
    ensures Release(db, id, t).Success?
    ensures Commits(db, Release(db, id, t).value, id,
                    if t.ReleaseUnsent? then ReleasedUnsent else RejectedBeforeProcessing, None, 0) == true
    ensures Release(db, id, t).value.latches == db.latches
  {
    ReleaseSound(db, id, t);
    EligibleIsGroup(db.rows, id, t, db.meta.currentEpoch);
    FinishWrites(db, id, t, Finish(Target(t), None), 0);
  }

  lemma ReleaseGroupExactly(db: Tables, id: int, t: Transition)
    requires Valid(db) && (t.ReleaseUnsent? || t.RejectBeforeProcessing?)
    ensures var (from, target) :=
              if t.ReleaseUnsent? then (Reserved, ReleasedUnsent) else (Dispatching, RejectedBeforeProcessing);
            var r := Release(db, id, t);
            if InState(db.rows, id, {from})
            then r.Success? && Commits(db, r.value, id, target, None, 0) == true && r.value.latches == db.latches
            else r == Failure(Fault(db.rows, id, target))
  {
    if InState(db.rows, id, if t.ReleaseUnsent? then {Reserved} else {Dispatching}) {
      ReleaseCommits(db, id, t);
    } else {
      ReleaseRefused(db, id, t);
    }
  }

  /** Releasing what was never sent. */
  lemma ReleaseUnsentExactly(w: World, id: int)
    requires Sane(w)
    ensures var c := ReleaseAs(id, ReleaseUnsent);
            if InState(w.db.rows, id, {Reserved}) then Succeeds(w, c) && Finishes(w, c, id, ReleasedUnsent, None, 0)
            else Refuses(w, c, id, ReleasedUnsent)
  {
    if InState(w.db.rows, id, {Reserved}) {
      ReleaseCommits(w.db, id, ReleaseUnsent);
    } else {
      ReleaseRefused(w.db, id, ReleaseUnsent);
    }
  }

  /** And what was refused before processing. */
  lemma RejectExactly(w: World, id: int)
    requires Sane(w)
    ensures var c := ReleaseAs(id, RejectBeforeProcessing);
            if InState(w.db.rows, id, {Dispatching})
            then Succeeds(w, c) && Finishes(w, c, id, RejectedBeforeProcessing, None, 0)
            else Refuses(w, c, id, RejectedBeforeProcessing)
  {
    if InState(w.db.rows, id, {Dispatching}) {
      ReleaseCommits(w.db, id, RejectBeforeProcessing);
    } else {
      ReleaseRefused(w.db, id, RejectBeforeProcessing);
    }
  }

  /** The report of usage is one that can be charged. */
  predicate Chargeable(head: Row, response: Completed, rev: int) {
    && response.usage.Some?
    && response.usage.value.input >= 0 && response.usage.value.output >= 0
    && response.usage.value.input + response.usage.value.output <= I64_MAX
    && response.model == head.model && response.tier == head.tier && rev == head.rev
  }

  /** The input and output reported, or the liability when the report cannot be used. */
  function Due(head: Row, response: Completed, rev: int): int {
    if Chargeable(head, response, rev) then response.usage.value.input + response.usage.value.output else head.liability
  }

  lemma SettleRefused(db: Tables, id: int, response: Completed, rev: int)
    requires Valid(db) && !InState(db.rows, id, {Dispatching, DispatchedWithId})
    ensures SettleGroup(db, id, response, rev) == Failure(Fault(db.rows, id, Settled))
  {
    EligibleExactly(db.rows, id, Settle, db.meta.currentEpoch);
  }

  lemma DueIsCharge(head: Row, response: Completed, rev: int)
    ensures var p := SettlePatch(head, response, rev);
            if Chargeable(head, response, rev) then p == Finish(Settled, Some(Due(head, response, rev)))
            else p == Finish(ConsumedUnrecoverable, None)
    ensures ChargeOf(head, SettleWith(0, response, rev)) == Due(head, response, rev)
  {
  }

  lemma SettleFits(db: Tables, id: int, response: Completed, rev: int)
    requires Valid(db) && InState(db.rows, id, {Dispatching, DispatchedWithId})
    ensures if Overfull(db, id, Due(db.rows[id - 1], response, rev))
            then SettleGroup(db, id, response, rev) == Failure(LedgerError.Overflow)
            else SettleGroup(db, id, response, rev).Success?
  {
    var head := db.rows[id - 1];
    SettleSound(db, id, response, rev);
    SettleSucceeds(db, id, response, rev);
    DueIsCharge(head, response, rev);
    RoomOrOverfull(db, id, Due(head, response, rev));
  }

  lemma SettleCommits(db: Tables, id: int, response: Completed, rev: int)
    requires Valid(db) && InState(db.rows, id, {Dispatching, DispatchedWithId})
    requires SettleGroup(db, id, response, rev).Success?
    ensures var head, good := db.rows[id - 1], Chargeable(db.rows[id - 1], response, rev);
            var due := Due(head, response, rev);
            Commits(db, SettleGroup(db, id, response, rev).value.0, id, if good then Settled else ConsumedUnrecoverable,
                    if good then Some(due) else None, due) == true
  {
    var head := db.rows[id - 1];
    EligibleIsGroup(db.rows, id, Settle, db.meta.currentEpoch);
    var group := Eligible(db.rows, id, Settle).value;
    SettleUnfolds(db, id, response, rev);
    DueIsCharge(head, response, rev);
    DueIsCharge(group[0], response, rev);
    FinishWrites(db, id, Settle, SettlePatch(head, response, rev), Due(head, response, rev));
  }

  lemma SettleGroupExactly(db: Tables, id: int, response: Completed, rev: int)
    requires Valid(db)
    ensures var r := SettleGroup(db, id, response, rev);
            if !InState(db.rows, id, {Dispatching, DispatchedWithId}) then r == Failure(Fault(db.rows, id, Settled))
            else
              var head := db.rows[id - 1];
              var good, due := Chargeable(head, response, rev), Due(head, response, rev);
              if Overfull(db, id, due) then r == Failure(LedgerError.Overflow)
              else
                && r.Success?
                && Commits(db, r.value.0, id, if good then Settled else ConsumedUnrecoverable,
                           if good then Some(due) else None, due) == true
  {
    if InState(db.rows, id, {Dispatching, DispatchedWithId}) {
      SettleFits(db, id, response, rev);
      if SettleGroup(db, id, response, rev).Success? {
        SettleCommits(db, id, response, rev);
      }
    } else {
      SettleRefused(db, id, response, rev);
    }
  }

  /** Settling: from mid-dispatch or with a known id, never with an unknown one. Each
      row is charged what is due. */
  lemma SettleExactly(w: World, id: int, response: Completed, rev: int)
    requires Sane(w)
    ensures var c := SettleWith(id, response, rev);
            if !InState(w.db.rows, id, {Dispatching, DispatchedWithId}) then Refuses(w, c, id, Settled)
            else
              var head := w.db.rows[id - 1];
              var good, due := Chargeable(head, response, rev), Due(head, response, rev);
              if Overfull(w.db, id, due) then Overflows(w, c)
              else
                && Succeeds(w, c)
                && Finishes(w, c, id, if good then Settled else ConsumedUnrecoverable,
                            if good then Some(due) else None, due)
  {
    if !InState(w.db.rows, id, {Dispatching, DispatchedWithId}) {
      SettleRefused(w.db, id, response, rev);
    } else {
      SettleFits(w.db, id, response, rev);
      if SettleGroup(w.db, id, response, rev).Success? {
        SettleCommits(w.db, id, response, rev);
      }
    }
  }

  lemma BeginRefused(db: Tables, id: int)
    requires Valid(db)
    ensures DispatchMark(db, id) ==
            if !InState(db.rows, id, {Reserved}) then Failure(Fault(db.rows, id, Dispatching))
            else if db.meta.generation >= I64_MAX || db.meta.cumulative + db.rows[id - 1].liability > I64_MAX then
              Failure(LedgerError.Overflow)
            else Success(HighWaterMark(db.meta.generation + 1, db.meta.cumulative + db.rows[id - 1].liability,
                                       db.rows[id - 1].root))
  {
    EligibleExactly(db.rows, id, BeginDispatch, db.meta.currentEpoch);
    if 1 <= id <= |db.rows| {
      assert Placed(db.rows, id - 1, db.meta.currentEpoch);
    }
  }

  /** Beginning a dispatch: only what is reserved, and only while the record has room
      for one more generation and the liability. */
  lemma BeginExactly(w: World, id: int)
    requires Sane(w)
    ensures var c := Begin(id, Durable);
            if !InState(w.db.rows, id, {Reserved}) then Refuses(w, c, id, Dispatching)
            else if w.db.meta.generation >= I64_MAX || w.db.meta.cumulative + w.db.rows[id - 1].liability > I64_MAX then
              Overflows(w, c)
            else
              var mark := HighWaterMark(w.db.meta.generation + 1, w.db.meta.cumulative + w.db.rows[id - 1].liability,
                                        w.db.rows[id - 1].root);
              && Succeeds(w, c) && Do(w, c).ext == Present(mark)
              && Writes(w.db.rows, Do(w, c).db.rows, id, Dispatching, None, None)
              && Do(w, c).db == w.db.(rows := Do(w, c).db.rows,
                                      meta := w.db.meta.(generation := mark.generation, cumulative := mark.cumulative))
  {
    BeginRefused(w.db, id);
    if DispatchMark(w.db, id).Success? {
      BeginWrites(w.db, id, DispatchMark(w.db, id).value);
    }
  }

  lemma BeginWrites(db: Tables, id: int, mark: HighWaterMark)
    requires Valid(db) && DispatchMark(db, id) == Success(mark)
    ensures 1 <= id <= |db.rows| && CommitDispatch(db, id, mark).Success?
    ensures var after := CommitDispatch(db, id, mark).value;
            && Writes(db.rows, after.rows, id, Dispatching, None, None) == true
            && after == db.(rows := after.rows, meta := db.meta.(generation := mark.generation,
                                                                 cumulative := mark.cumulative))
  {
    DispatchParts(db, id, mark);
    forall i: nat | i < |db.rows| && db.rows[i].root == db.rows[id - 1].root
      ensures db.rows[i].settled.None? && db.rows[i].responseId.None?
    {
      HeadShape(db.rows, db.meta.currentEpoch, i, id);
    }
  }
}
