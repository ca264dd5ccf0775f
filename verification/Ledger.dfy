/**
The ledger object: an open connection, the external record beside it, and the
trust verdict in memory (`ledger.rs`, `transitions.rs`, `rollover.rs`). Every
method works on a copy of the tables and commits by one assignment, so an error
on the way leaves the tables as they were.
*/
module LedgerObject {
  import opened Results
  import opened ReservationState
  import opened Tables
  import opened Trust
  import opened Transactions
  import LedgerInvariant
  import GroupTransitions
  import GroupCalls
  import opened AdmissionRule
  import DailyRollover
  import Recovery

  class Ledger {
    var conn: Tables
    var hwm: External
    var trust: Verdict

    predicate Valid()
      reads this
    {
      LedgerInvariant.Valid(conn)
    }

    /** The process attaching to what is on disk; it trusts nothing yet. */
    constructor (disk: Tables, external: External)
      ensures conn == disk && hwm == external && trust == Unknown(Uninitialized)
    {
      conn, hwm, trust := disk, external, Unknown(Uninitialized);
    }

    /** Opening a ledger: integrity check, assessment, normalisation. On valid
        tables it always succeeds. */
    method Start() returns (r: Result<Assessment, LedgerError>)
      modifies this
      ensures hwm == old(hwm)
      ensures r.Failure? ==> conn == old(conn) && trust == old(trust)
      ensures r.Success? ==>
                && r.value == Assess(old(conn).meta, hwm, old(conn).rows)
                && Success(conn) == Normalize(old(conn), r.value, hwm)
                && trust == r.value.verdict
      ensures LedgerInvariant.Valid(old(conn)) && Recovery.Sensible(hwm) ==> r.Success? && Valid()
    {
      if LedgerInvariant.Valid(conn) {
        LedgerInvariant.ValidIsConsistent(conn);
      }
      var checked := CheckIntegrity();
      if checked.Failure? {
        return Failure(checked.error);
      }
      var a := Assess(conn.meta, hwm, conn.rows);
      if LedgerInvariant.Valid(conn) && Recovery.Sensible(hwm) {
        Recovery.NormalizeSound(conn, a, hwm);
      }
      var normalized := NormalizeAfterRestart(a);
      if normalized.Failure? {
        return Failure(normalized.error);
      }
      trust := a.verdict;
      return Success(a);
    }

    method CheckIntegrity() returns (r: Result<(), LedgerError>)
      ensures r.Success? <==> Consistent(conn)
    {
      if !GroupsAgree(conn.rows) {
        return Failure(Integrity(SplitGroups));
      }
      if !ReservedMatches(conn) {
        return Failure(Integrity(ReservedMismatch));
      }
      return Success(());
    }

    method NormalizeAfterRestart(a: Assessment) returns (r: Result<(), LedgerError>)
      modifies this`conn
      ensures match Normalize(old(conn), a, hwm)
              case Failure(error) => r == Failure(error) && conn == old(conn)
              case Success(after) => r.Success? && conn == after
    {
      var tx := Resolved(conn, a, hwm);
      var unsent := Selector(None, Reserved);
      if Interpretable(a.verdict) {
        var pools := ReleaseEach(tx.pools, Selected(tx.rows, unsent), 0);
        if pools.Failure? {
          return Failure(pools.error);
        }
        tx := tx.(pools := pools.value, rows := Update(tx.rows, unsent, Finish(ReleasedUnsent, None)));
      } else {
        tx := tx.(rows := Update(tx.rows, unsent, IdUnknown));
      }
      conn := tx;
      return Success(());
    }

    method MarkCleanShutdown() returns (r: Result<(), LedgerError>)
      requires Valid()
      modifies this`conn
      ensures Valid() && r.Success? && conn == old(conn).(meta := old(conn).meta.(clean := true))
    {
      LedgerInvariant.ValidIsConsistent(conn);
      r := CheckIntegrity();
      if r.Failure? {
        return;
      }
      conn := conn.(meta := conn.meta.(clean := true));
    }

    // -------------------------------------------------------------------
    // Admission.

    method Reserve(request: Request, now: int) returns (r: Result<Admission, LedgerError>)
      requires Valid()
      modifies this`conn
      ensures Valid()
      ensures !trust.Trusted? ==> r == Success(Refused(Untrusted(trust))) && conn == old(conn)
      ensures trust.Trusted? ==>
                match Transactions.Reserve(old(conn), request, now)
                case Failure(error) => r == Failure(error) && conn == old(conn)
                case Success((after, admission)) => r == Success(admission) && conn == after
    {
      if !trust.Trusted? {
        return Success(Refused(Untrusted(trust)));
      }
      ReserveSound(conn, request, now);
      if request.liability > I64_MAX {
        return Failure(Overflow);
      }
      var keys := SortDedup(request.required);
      var latch := LatchRefusal(conn.latches, request.pool, request.model);
      if latch.Some? {
        return Success(Refused(latch.value));
      }
      var tx, k := conn, 0;
      while k < |keys|
        invariant 0 <= k <= |keys|
        invariant SafetyRefusal(tx.safety, keys, request.liability, now) ==
                  SafetyRefusal(tx.safety, keys[k..], request.liability, now)
      {
        assert keys[k..][1..] == keys[k + 1..];
        if keys[k] !in tx.safety {
          return Success(Refused(SafetyInputMissing(keys[k])));
        }
        var s := tx.safety[keys[k]];
        if !InI64(s.verifiedAt + s.ttl) {
          return Failure(Overflow);
        }
        if now >= s.verifiedAt + s.ttl || now < s.verifiedAt {
          return Success(Refused(SafetyInputExpired(keys[k])));
        }
        if s.budgetRemaining < request.liability {
          return Success(Refused(SafetyBudgetExhausted(keys[k], s.budgetRemaining)));
        }
        k := k + 1;
      }
      var key := (request.pool, tx.meta.currentEpoch);
      if key !in tx.pools {
        return Success(Refused(PoolNotOpen(key.0, key.1)));
      }
      var c := tx.pools[key];
      var remaining := c.granted - c.consumed - c.reserved;
      if !InI64(c.granted - c.consumed) || !InI64(remaining) {
        return Failure(Overflow);
      }
      if remaining < request.liability {
        return Success(Refused(InsufficientQuota(remaining, request.liability)));
      }
      var pools := AdjustPool(tx.pools, key, request.liability, 0);
      if pools.Failure? {
        return Failure(pools.error);
      }
      var safety := DebitEach(tx.safety, keys, request.liability);
      var row := NewRow(tx.rows, key.1, request, now);
      conn := tx.(pools := pools.value, safety := safety, rows := tx.rows + [row]);
      return Success(Admitted(row.id));
    }

    static method DebitEach(before: map<string, SafetyInput>, keys: seq<string>, liability: int)
      returns (safety: map<string, SafetyInput>)
      ensures safety == Debit(before, keys, liability)
    {
      safety := before;
      for k := 0 to |keys|
        invariant Debit(before, keys, liability) == Debit(safety, keys[k..], liability)
      {
        assert keys[k..][1..] == keys[k + 1..];
        if keys[k] in safety {
          safety := safety[keys[k] := safety[keys[k]].(budgetRemaining := safety[keys[k]].budgetRemaining - liability)];
        }
      }
    }

    /** From now on, for its time to live, the input vouches for what its whole budget covers;
        every other input, and every other table, is as it was. */
    method RevalidateSafetyInput(key: string, now: int, ttl: int, budget: nat) returns (r: Result<(), LedgerError>)
      requires Valid()
      modifies this`conn
      ensures Valid() && conn == old(conn).(safety := conn.safety)
      ensures match Revalidate(old(conn), key, now, ttl, budget)
              case Failure(error) => r == Failure(error) && conn == old(conn)
              case Success(after) => r.Success? && conn == after
      ensures r == if budget > I64_MAX then Failure(LedgerError.Overflow)
                   else if ttl <= 0 then Failure(LedgerError.Constraint) else Success(())
      ensures r.Success? ==>
                && (forall k :: k in conn.safety <==> k in old(conn).safety || k == key)
                && (forall k | k in old(conn).safety && k != key :: conn.safety[k] == old(conn).safety[k])
                && (forall liability, t ::
                      Vouches(conn.safety, key, liability, t) <==> now <= t < now + ttl && liability <= budget)
    {
      var after := Revalidate(conn, key, now, ttl, budget);
      if after.Failure? {
        return Failure(after.error);
      }
      conn := after.value;
      return Success(());
    }

    /** Nothing that needs the input is admitted until it is verified again; every
        other input, and every other table, is as it was. */
    method InvalidateSafetyInput(key: string)
      requires Valid()
      modifies this`conn
      ensures Valid() && conn == old(conn).(safety := conn.safety)
      ensures forall k :: k in conn.safety <==> k in old(conn).safety && k != key
      ensures forall k | k in conn.safety :: conn.safety[k] == old(conn).safety[k]
      ensures forall request: Request, now | key in request.required :: !MayAdmit(conn, request, now)
    {
      conn := Invalidate(conn, key);
    }

    /** Nothing the scope covers is admitted while the latch stands; no earlier latch
        and no other table is touched. */
    method SetLatch(scope: string, text: string)
      requires Valid()
      modifies this`conn
      ensures Valid() && conn == old(conn).(latches := conn.latches)
      ensures conn.latches == old(conn).latches + [Latch(scope, Manual(text), false)]
      ensures forall request: Request, now |
                scope == "global" || scope == request.pool || scope == "model:" + request.model ::
                !MayAdmit(conn, request, now)
    {
      conn := WithLatch(conn, scope, Manual(text));
      assert conn.latches[|conn.latches| - 1] in conn.latches;
    }

    /** No latch of the scope stands any more; the others stand or not as before, and
        none is forgotten. */
    method ClearScope(scope: string)
      requires Valid()
      modifies this`conn
      ensures Valid() && conn == old(conn).(latches := conn.latches)
      ensures |conn.latches| == |old(conn).latches|
      ensures forall i | 0 <= i < |conn.latches| ::
                var was := old(conn).latches[i];
                conn.latches[i] == Latch(was.scope, was.reason, was.cleared || was.scope == scope)
      ensures forall request: Request, now | MayAdmit(old(conn), request, now) :: MayAdmit(conn, request, now)
    {
      conn := ClearLatches(conn, scope);
    }

    // -------------------------------------------------------------------
    // Group transitions.

    /** The external mark is made durable before the commit. When this fails
        the tables are unchanged, whatever became of the mark. */
    method BeginDispatch(id: int, io: Durability) returns (r: Result<(), LedgerError>)
      requires Valid()
      modifies this`conn, this`hwm
      ensures Valid()
      ensures r.Failure? ==> conn == old(conn)
      ensures match DispatchMark(old(conn), id)
              case Failure(error) => r == Failure(error) && hwm == old(hwm)
              case Success(mark) =>
                && hwm == (if io.NotWritten? then old(hwm) else Present(mark))
                && (r.Success? <==> io.Durable?)
                && (io.Durable? ==> Success(conn) == CommitDispatch(old(conn), id, mark))
      ensures !GroupCalls.InState(old(conn).rows, id, {Reserved}) ==>
                r == Failure(GroupCalls.Fault(old(conn).rows, id, Dispatching)) && hwm == old(hwm)
      ensures r.Success? ==>
                && GroupCalls.InState(old(conn).rows, id, {Reserved})
                && GroupCalls.Writes(old(conn).rows, conn.rows, id, Dispatching, None, None)
                && var head := old(conn).rows[id - 1];
                   hwm == Present(HighWaterMark(old(conn).meta.generation + 1,
                                                old(conn).meta.cumulative + head.liability, head.root))
    {
      GroupCalls.BeginRefused(conn, id);
      var mark := DispatchMark(conn, id);
      if mark.Failure? {
        return Failure(mark.error);
      }
      GroupTransitions.DispatchSound(conn, id, mark.value);
      if io.NotWritten? {
        return Failure(Io);
      }
      hwm := Present(mark.value);
      if io.WrittenNotCommitted? {
        return Failure(Io);
      }
      GroupCalls.BeginWrites(conn, id, mark.value);
      var after := CommitDispatch(conn, id, mark.value);
      conn := after.value;
      return Success(());
    }

    method RelabelWith(id: int, t: Transition, response: Option<string>) returns (r: Result<(), LedgerError>)
      requires Valid()
      requires t.AttachResponseId? || t.MarkIdUnknown?
      requires t.AttachResponseId? <==> response.Some?
      modifies this`conn
      ensures Valid()
      ensures match RelabelGroup(old(conn), id, t, response)
              case Failure(error) => r == Failure(error) && conn == old(conn)
              case Success(after) => r.Success? && conn == after
      ensures conn == old(conn).(rows := conn.rows)
      ensures GroupCalls.InState(old(conn).rows, id, {Dispatching}) ==>
                r.Success? && GroupCalls.Writes(old(conn).rows, conn.rows, id,
                                                if t.AttachResponseId? then DispatchedWithId else DispatchedIdUnknown,
                                                None, response)
      ensures !GroupCalls.InState(old(conn).rows, id, {Dispatching}) ==> r.Failure?
    {
      GroupTransitions.RelabelSound(conn, id, t, response);
      GroupCalls.RelabelExactly(conn, id, t, response);
      var after := RelabelGroup(conn, id, t, response);
      if after.Failure? {
        return Failure(after.error);
      }
      conn := after.value;
      return Success(());
    }

    method AttachResponseId(id: int, response: string) returns (r: Result<(), LedgerError>)
      requires Valid()
      modifies this`conn
      ensures Valid()
      ensures conn == old(conn).(rows := conn.rows)
      ensures if GroupCalls.InState(old(conn).rows, id, {Dispatching})
              then && r.Success?
                   && GroupCalls.Writes(old(conn).rows, conn.rows, id, DispatchedWithId, None, Some(response))
              else r == Failure(GroupCalls.Fault(old(conn).rows, id, DispatchedWithId)) && conn == old(conn)
    {
      GroupCalls.RelabelExactly(conn, id, Transition.AttachResponseId, Some(response));
      r := RelabelWith(id, Transition.AttachResponseId, Some(response));
    }

    method MarkIdUnknown(id: int) returns (r: Result<(), LedgerError>)
      requires Valid()
      modifies this`conn
      ensures Valid()
      ensures conn == old(conn).(rows := conn.rows)
      ensures if GroupCalls.InState(old(conn).rows, id, {Dispatching})
              then && r.Success?
                   && GroupCalls.Writes(old(conn).rows, conn.rows, id, DispatchedIdUnknown, None, None)
              else r == Failure(GroupCalls.Fault(old(conn).rows, id, DispatchedIdUnknown)) && conn == old(conn)
    {
      GroupCalls.RelabelExactly(conn, id, Transition.MarkIdUnknown, None);
      r := RelabelWith(id, Transition.MarkIdUnknown, None);
    }

    /** The counter half of finishing a group, one row at a time. */
    static method ReleaseEach(before: map<Key, Counters>, rows: seq<Row>, charge: int)
      returns (r: Result<map<Key, Counters>, LedgerError>)
      ensures r == ReleaseRows(before, rows, charge)
    {
      var pools := before;
      for k := 0 to |rows|
        invariant ReleaseRows(before, rows, charge) == ReleaseRows(pools, rows[k..], charge)
      {
        assert rows[k..][1..] == rows[k + 1..];
        var next := AdjustPool(pools, (rows[k].pool, rows[k].epoch), -rows[k].liability, charge);
        if next.Failure? {
          return Failure(next.error);
        }
        pools := next.value;
      }
      return Success(pools);
    }

    static method FinishIn(tx: Tables, group: seq<Row>, target: State, charge: int, settled: Option<int>)
      returns (r: Result<Tables, LedgerError>)
      requires |group| > 0
      ensures r == FinishGroup(tx, group, target, charge, settled)
    {
      var pools := ReleaseEach(tx.pools, group, charge);
      if pools.Failure? {
        return Failure(pools.error);
      }
      var sel := Selector(Some(group[0].root), group[0].state);
      if |Selected(tx.rows, sel)| != |group| {
        return Failure(Integrity(RowCount));
      }
      return Success(tx.(pools := pools.value, rows := Update(tx.rows, sel, Finish(target, settled))));
    }

    method Settle(id: int, response: Completed, rev: int) returns (r: Result<Settlement, LedgerError>)
      requires Valid()
      modifies this`conn
      ensures Valid()
      ensures match SettleGroup(old(conn), id, response, rev)
              case Failure(error) => r == Failure(error) && conn == old(conn)
              case Success((after, outcome)) => r == Success(outcome) && conn == after
      ensures if !GroupCalls.InState(old(conn).rows, id, {Dispatching, DispatchedWithId})
              then r == Failure(GroupCalls.Fault(old(conn).rows, id, Settled))
              else
                var head := old(conn).rows[id - 1];
                var good, due := GroupCalls.Chargeable(head, response, rev), GroupCalls.Due(head, response, rev);
                if GroupCalls.Overfull(old(conn), id, due) then r == Failure(LedgerError.Overflow)
                else
                  && r.Success?
                  && GroupCalls.Commits(old(conn), conn, id, if good then Settled else ConsumedUnrecoverable,
                                        if good then Some(due) else None, due)
    {
      GroupCalls.SettleGroupExactly(conn, id, response, rev);
      GroupTransitions.SettleSound(conn, id, response, rev);
      var group := Eligible(conn.rows, id, Transition.Settle);
      if group.Failure? {
        return Failure(group.error);
      }
      var head := group.value[0];
      var tx;
      match Validate(head, response, rev) {
        case Failure(defect) =>
          tx := FinishIn(conn, group.value, ConsumedUnrecoverable, head.liability, None);
          if tx.Failure? {
            return Failure(tx.error);
          }
          conn := WithLatch(tx.value, head.pool, InvalidUsage(defect));
          r := Success(WrittenOff(defect));
        case Success(actual) =>
          tx := FinishIn(conn, group.value, Settled, actual, Some(actual));
          if tx.Failure? {
            return Failure(tx.error);
          }
          var overrun := actual > head.liability;
          conn := if overrun then WithLatch(tx.value, "model:" + head.model, Overrun) else tx.value;
          r := Success(SettledFor(actual, overrun));
      }
    }

    method WriteOff(id: int) returns (r: Result<(), LedgerError>)
      requires Valid()
      modifies this`conn
      ensures Valid()
      ensures match Transactions.WriteOff(old(conn), id)
              case Failure(error) => r == Failure(error) && conn == old(conn)
              case Success(after) => r.Success? && conn == after
      ensures if !GroupCalls.InState(old(conn).rows, id, {Dispatching, DispatchedWithId, DispatchedIdUnknown})
              then r == Failure(GroupCalls.Fault(old(conn).rows, id, ConsumedUnrecoverable))
              else if GroupCalls.Overfull(old(conn), id, old(conn).rows[id - 1].liability)
              then r == Failure(LedgerError.Overflow)
              else && r.Success?
                   && GroupCalls.Commits(old(conn), conn, id, ConsumedUnrecoverable, None,
                                         old(conn).rows[id - 1].liability)
                   && conn.latches == old(conn).latches
    {
      GroupCalls.WriteOffExactly(conn, id);
      GroupTransitions.WriteOffSound(conn, id);
      var group := Eligible(conn.rows, id, Unrecoverable);
      if group.Failure? {
        return Failure(group.error);
      }
      var tx := FinishIn(conn, group.value, ConsumedUnrecoverable, group.value[0].liability, None);
      if tx.Failure? {
        return Failure(tx.error);
      }
      conn := tx.value;
      return Success(());
    }

    /** `release_unsent` and `release_rejected`. */
    method Release(id: int, t: Transition) returns (r: Result<(), LedgerError>)
      requires Valid()
      requires t.ReleaseUnsent? || t.RejectBeforeProcessing?
      modifies this`conn
      ensures Valid()
      ensures match Transactions.Release(old(conn), id, t)
              case Failure(error) => r == Failure(error) && conn == old(conn)
              case Success(after) => r.Success? && conn == after
      ensures var (from, target) :=
                if t.ReleaseUnsent? then (Reserved, ReleasedUnsent) else (Dispatching, RejectedBeforeProcessing);
              if GroupCalls.InState(old(conn).rows, id, {from})
              then && r.Success?
                   && GroupCalls.Commits(old(conn), conn, id, target, None, 0) && conn.latches == old(conn).latches
              else r == Failure(GroupCalls.Fault(old(conn).rows, id, target))
    {
      GroupCalls.ReleaseGroupExactly(conn, id, t);
      GroupTransitions.ReleaseSound(conn, id, t);
      var group := Eligible(conn.rows, id, t);
      if group.Failure? {
        return Failure(group.error);
      }
      var tx := FinishIn(conn, group.value, Target(t), 0, None);
      if tx.Failure? {
        return Failure(tx.error);
      }
      conn := tx.value;
      return Success(());
    }

    // -------------------------------------------------------------------
    // Rollover and adoption.

    static method OpenEach(before: map<Key, Counters>, epoch: int, grants: seq<(string, nat)>)
      returns (r: Result<map<Key, Counters>, LedgerError>)
      ensures r == OpenPools(before, epoch, grants)
    {
      var pools := before;
      for k := 0 to |grants|
        invariant OpenPools(before, epoch, grants) == OpenPools(pools, epoch, grants[k..])
      {
        assert grants[k..][1..] == grants[k + 1..];
        if grants[k].1 > I64_MAX {
          return Failure(Overflow);
        }
        if (grants[k].0, epoch) !in pools {
          pools := pools[(grants[k].0, epoch) := Counters(grants[k].1, 0, 0)];
        }
      }
      return Success(pools);
    }

    static method CarryEach(before: Carried, carry: seq<Row>, epoch: int) returns (r: Result<Carried, LedgerError>)
      ensures r == CarryAll(before, carry, epoch)
    {
      var so := before;
      for k := 0 to |carry|
        invariant CarryAll(before, carry, epoch) == CarryAll(so, carry[k..], epoch)
      {
        assert carry[k..][1..] == carry[k + 1..];
        var next := CarryOne(so, carry[k], epoch);
        if next.Failure? {
          return Failure(next.error);
        }
        so := next.value;
      }
      return Success(so);
    }

    method Rollover(epoch: int, grants: seq<(string, nat)>) returns (r: Result<RolloverOutcome, LedgerError>)
      requires Valid()
      modifies this`conn
      ensures Valid()
      ensures match Transactions.Rollover(old(conn), epoch, grants)
              case Failure(error) => r == Failure(error) && conn == old(conn)
              case Success((after, outcome)) => r == Success(outcome) && conn == after
    {
      if epoch <= conn.meta.currentEpoch {
        return Success(AlreadyCurrent);
      }
      DailyRollover.RolloverSound(conn, epoch, grants);
      var pools := OpenEach(conn.pools, epoch, grants);
      if pools.Failure? {
        return Failure(pools.error);
      }
      var done := CarryEach(Carried(conn.rows, pools.value, 0), CarryList(conn.rows, conn.rows, epoch), epoch);
      if done.Failure? {
        return Failure(done.error);
      }
      conn := conn.(rows := done.value.rows, pools := done.value.pools,
                    meta := conn.meta.(currentEpoch := epoch));
      return Success(Advanced(done.value.count));
    }

    static method RaiseEach(before: map<Key, Counters>, adoptions: seq<Adoption>)
      returns (r: Result<map<Key, Counters>, LedgerError>)
      ensures r == RaiseAll(before, adoptions)
    {
      var pools := before;
      for k := 0 to |adoptions|
        invariant RaiseAll(before, adoptions) == RaiseAll(pools, adoptions[k..])
      {
        assert adoptions[k..][1..] == adoptions[k + 1..];
        var a := adoptions[k];
        if a.consumed > I64_MAX {
          return Failure(Overflow);
        }
        if (a.pool, a.epoch) !in pools {
          return Failure(Integrity(NotOpen));
        }
        if a.consumed > pools[(a.pool, a.epoch)].consumed {
          var next := AdjustPool(pools, (a.pool, a.epoch), 0, a.consumed - pools[(a.pool, a.epoch)].consumed);
          if next.Failure? {
            return Failure(next.error);
          }
          pools := next.value;
        }
      }
      return Success(pools);
    }

    method AdoptRecoveredConsumption(adoptions: seq<Adoption>, io: Durability) returns (r: Result<(), LedgerError>)
      requires Valid()
      requires Recovery.Sensible(hwm)
      modifies this
      ensures Valid()
      ensures r.Failure? ==> conn == old(conn) && trust == old(trust)
      ensures r.Success? ==> trust.Trusted?
      ensures match Anchor(old(conn).meta, old(hwm))
              case Failure(error) => r == Failure(error) && hwm == old(hwm)
              case Success(anchor) =>
                && hwm == (if io.NotWritten? then old(hwm) else Present(anchor))
                && (io.Durable? ==>
                      match CommitAdoption(old(conn), adoptions, anchor)
                      case Failure(error) => r == Failure(error)
                      case Success(after) => r.Success? && conn == after)
                && (!io.Durable? ==> r == Failure(Io))
    {
      var anchor := Anchor(conn.meta, hwm);
      if anchor.Failure? {
        return Failure(anchor.error);
      }
      if io.NotWritten? {
        return Failure(Io);
      }
      Recovery.AdoptionSound(conn, adoptions, anchor.value);
      hwm := Present(anchor.value);
      if io.WrittenNotCommitted? {
        return Failure(Io);
      }
      var pools := RaiseEach(conn.pools, adoptions);
      if pools.Failure? {
        return Failure(pools.error);
      }
      conn := conn.(pools := pools.value,
                    meta := conn.meta.(generation := anchor.value.generation, cumulative := anchor.value.cumulative));
      trust := Trusted;
      return Success(());
    }
  }
}
