/** What each ledger command does to every single row, and which commands succeed. */
module RowEffects {
  import opened Results
  import opened ReservationState
  import opened Tables
  import opened Trust
  import opened Transactions
  import opened LedgerInvariant
  import opened GroupTransitions
  import opened AdmissionRule
  import opened DailyRollover
  import opened Recovery
  import opened Runs

  /** The call returned without an error. */
  predicate Succeeds(w: World, c: Command) {
    Outcome(w, c).None? && (c.Begin? || c.Adopt? ==> c.io.Durable?)
  }

  /** The group a command moves, and the update it applies. */
  function Movement(w: World, c: Command): Option<(int, Patch)> {
    if IsGroupCommand(c) then GroupCommand(w, c)
    else if c.Begin? && Admits(w.db.rows, c.id, BeginDispatch)
        && Succeeds(w, c) then Some((c.id, Relabel(Dispatching, None)))
    else None
  }

  function MovedRow(rows: seq<Row>, move: Option<(int, Patch)>, r: Row): Row {
    match move
    case None => r
    case Some((id, p)) => if 1 <= id <= |rows| && r.root == rows[id - 1].root then Patched(r, p) else r
  }

  function RowAfter(w: World, c: Command, r: Row): Row {
    if c.Open? then r.(state := Restarted(r, Assess(w.db.meta, w.ext, w.db.rows)))
    else MovedRow(w.db.rows, Movement(w, c), r)
  }

  /** A row a command may append: a new reservation, or a copy of an active row. */
  predicate Appended(rows: seq<Row>, c: Command, i: nat, r: Row) {
    || (c.Admit? && i == |rows| && r.root == i + 1 && r.state.Reserved?)
    || (c.RollTo? && exists j | 0 <= j < |rows| ::
        IsActive(rows[j].state) && r == rows[j].(id := r.id, epoch := r.epoch, settled := None))
  }

  /** Old rows change as `RowAfter` says, and nothing else is added. */
  ghost predicate Effect(w: World, c: Command) {
    var rows, after := w.db.rows, Do(w, c).db.rows;
    && |rows| <= |after|
    && (forall i | 0 <= i < |rows| :: after[i] == RowAfter(w, c, rows[i]))
    && (forall i | |rows| <= i < |after| :: Appended(rows, c, i, after[i]))
  }

  lemma GroupMoved(w: World, c: Command)
    requires Sane(w) && IsGroupCommand(c)
    ensures GroupCommand(w, c).None? ==> Do(w, c) == w
    ensures GroupCommand(w, c).Some? ==>
              Moved(w.db.rows, Do(w, c).db.rows, GroupCommand(w, c).value.0, GroupCommand(w, c).value.1) == true
  {
    GroupKeeps(w, c);
  }

  lemma MovedRows(rows: seq<Row>, after: seq<Row>, id: int, p: Patch)
    requires Moved(rows, after, id, p)
    ensures |after| == |rows|
    ensures forall i | 0 <= i < |rows| :: after[i] == MovedRow(rows, Some((id, p)), rows[i])
  {
  }

  lemma GroupEffect(w: World, c: Command)
    requires Sane(w) && IsGroupCommand(c)
    ensures Effect(w, c)
  {
    GroupMoved(w, c);
    var move := GroupCommand(w, c);
    if move.Some? {
      MovedRows(w.db.rows, Do(w, c).db.rows, move.value.0, move.value.1);
    }
  }

  /** A dispatch either commits, moving its group, or leaves the tables alone. */
  lemma BeginMoved(w: World, c: Command)
    requires Sane(w) && c.Begin?
    ensures Succeeds(w, c) ==> Admits(w.db.rows, c.id, BeginDispatch)
    ensures Succeeds(w, c) ==> Moved(w.db.rows, Do(w, c).db.rows, c.id, Relabel(Dispatching, None)) == true
    ensures !Succeeds(w, c) ==> Do(w, c).db == w.db
  {
    if DispatchMark(w.db, c.id).Success? {
      DispatchParts(w.db, c.id, DispatchMark(w.db, c.id).value);
    }
  }

  lemma BeginEffect(w: World, c: Command)
    requires Sane(w) && c.Begin?
    ensures Effect(w, c)
  {
    BeginMoved(w, c);
    if Succeeds(w, c) {
      MovedRows(w.db.rows, Do(w, c).db.rows, c.id, Relabel(Dispatching, None));
    }
  }

  lemma AdmitEffect(w: World, c: Command)
    requires Sane(w) && c.Admit?
    ensures Effect(w, c)
  {
    if Do(w, c) != w {
      assert Reserves(w.db, c.request, Do(w, c).db) by {
        ReserveSound(w.db, c.request, c.now);
      }
      var rows, after := w.db.rows, Do(w, c).db.rows;
      forall i | 0 <= i < |rows| ensures after[i] == rows[i] {
        assert after[..|rows|][i] == after[i];
      }
    }
  }

  lemma RollEffect(w: World, c: Command)
    requires Sane(w) && c.RollTo?
    ensures Effect(w, c)
  {
    if Do(w, c) != w {
      RollAppends(w, c);
      CopiesAppended(w.db.rows, c, w.db.meta.currentEpoch);
    }
  }

  lemma RollAppends(w: World, c: Command)
    requires Sane(w) && c.RollTo? && Do(w, c) != w
    ensures Do(w, c).db.rows == w.db.rows + Shadows(Live(w.db.rows, w.db.meta.currentEpoch), |w.db.rows|, c.epoch)
  {
    RolloverSound(w.db, c.epoch, c.grants);
  }

  lemma CopiesAppended(rows: seq<Row>, c: Command, current: int)
    requires c.RollTo?
    ensures var shadows := Shadows(Live(rows, current), |rows|, c.epoch);
            forall k | 0 <= k < |shadows| :: Appended(rows, c, |rows| + k, shadows[k])
  {
    var live := Live(rows, current);
    LiveMembers(rows, current);
    forall k | 0 <= k < |live| ensures Appended(rows, c, |rows| + k, Shadows(live, |rows|, c.epoch)[k]) {
      assert live[k] in live;
      var j :| 0 <= j < |rows| && rows[j] == live[k];
    }
  }

  /** Every command's effect on every row. */
  lemma EveryEffect(w: World, c: Command)
    requires Sane(w)
    ensures Effect(w, c)
  {
    if IsGroupCommand(c) {
      GroupEffect(w, c);
    } else if c.Open? {
      RestartKept(w);
    } else if c.Begin? {
      BeginEffect(w, c);
    } else if c.Admit? {
      AdmitEffect(w, c);
    } else if c.RollTo? {
      RollEffect(w, c);
    } else if c.Adopt? {
      if Anchor(w.db.meta, w.ext).Success? {
        AdoptionSound(w.db, c.adoptions, Anchor(w.db.meta, w.ext).value);
      }
    } else {
      OtherKept(w, c);
    }
  }

  /** The columns that say what was asked for, when, and for how much: written once, at
      admission, whatever is called afterwards; a copy made by rollover has them too. */
  predicate SameRequest(r: Row, later: Row) {
    && (later.root, later.pool, later.liability) == (r.root, r.pool, r.liability)
    && (later.digest, later.model, later.tier, later.rev) == (r.digest, r.model, r.tier, r.rev)
    && later.createdAt == r.createdAt
  }

  lemma RowKeepsRequest(w: World, c: Command, r: Row)
    ensures SameRequest(r, RowAfter(w, c, r)) && RowAfter(w, c, r).id == r.id && RowAfter(w, c, r).epoch == r.epoch
  {
  }

  lemma RequestIsKept(w: World, c: Command)
    requires Sane(w)
    ensures var rows, after := w.db.rows, Do(w, c).db.rows;
            && |rows| <= |after|
            && (forall i | 0 <= i < |rows| ::
                  SameRequest(rows[i], after[i]) && after[i].id == rows[i].id && after[i].epoch == rows[i].epoch)
            && (c.RollTo? ==> forall i | |rows| <= i < |after| ::
                  after[i].epoch == c.epoch && exists j | 0 <= j < |rows| :: SameRequest(rows[j], after[i]))
  {
    assert Effect(w, c) by {
      EveryEffect(w, c);
    }
    var rows, after := w.db.rows, Do(w, c).db.rows;
    forall i | 0 <= i < |rows|
      ensures SameRequest(rows[i], after[i]) && after[i].id == rows[i].id && after[i].epoch == rows[i].epoch
    {
      RowKeepsRequest(w, c, rows[i]);
    }
    if c.RollTo? && after != rows {
      RollAppends(w, c);
      forall i | |rows| <= i < |after|
        ensures after[i].epoch == c.epoch && exists j | 0 <= j < |rows| :: SameRequest(rows[j], after[i])
      {
        assert Appended(rows, c, i, after[i]);
      }
    }
  }

  // ---------------------------------------------------------------------
  // Which calls succeed.

  function Asked(c: Command): Transition
    requires IsGroupCommand(c) && (c.ReleaseAs? ==> c.t.ReleaseUnsent? || c.t.RejectBeforeProcessing?)
  {
    match c
    case Attach(_, _) => AttachResponseId
    case LoseId(_) => MarkIdUnknown
    case SettleWith(_, _, _) => Settle
    case GiveUp(_) => Unrecoverable
    case ReleaseAs(_, t) => t
  }

  /** A group command succeeds when the group's state admits it, unless charging
      would overflow a counter; and it is then exactly that the group moves. */
  ghost predicate Answered(w: World, c: Command, t: Transition)
    requires IsGroupCommand(c)
  {
    && (Succeeds(w, c) <==> GroupCommand(w, c).Some?)
    && (Succeeds(w, c) ==> Admits(w.db.rows, c.id, t))
    && (Admits(w.db.rows, c.id, t) && !Succeeds(w, c) ==>
        Outcome(w, c) == Some(Overflow) && (c.SettleWith? || c.GiveUp?))
  }

  lemma AttachAnswered(w: World, c: Command)
    requires Sane(w) && c.Attach?
    ensures Answered(w, c, AttachResponseId)
  {
    RelabelSound(w.db, c.id, AttachResponseId, Some(c.name));
  }

  lemma LoseAnswered(w: World, c: Command)
    requires Sane(w) && c.LoseId?
    ensures Answered(w, c, MarkIdUnknown)
  {
    RelabelSound(w.db, c.id, MarkIdUnknown, None);
  }

  lemma SettleAnswered(w: World, c: Command)
    requires Sane(w) && c.SettleWith?
    ensures Answered(w, c, Settle)
  {
    SettleSound(w.db, c.id, c.response, c.rev);
  }

  lemma GiveUpAnswered(w: World, c: Command)
    requires Sane(w) && c.GiveUp?
    ensures Answered(w, c, Unrecoverable)
  {
    WriteOffSound(w.db, c.id);
  }

  lemma ReleaseAnswered(w: World, c: Command)
    requires Sane(w) && c.ReleaseAs? && (c.t.ReleaseUnsent? || c.t.RejectBeforeProcessing?)
    ensures Answered(w, c, c.t)
  {
    ReleaseSound(w.db, c.id, c.t);
  }

  lemma GroupSucceeds(w: World, c: Command)
    requires Sane(w) && IsGroupCommand(c) && (c.ReleaseAs? ==> c.t.ReleaseUnsent? || c.t.RejectBeforeProcessing?)
    ensures Answered(w, c, Asked(c))
    ensures !Succeeds(w, c) ==> Do(w, c) == w
  {
    GroupMoved(w, c);
    match c {
      case Attach(_, _) => AttachAnswered(w, c);
      case LoseId(_) => LoseAnswered(w, c);
      case SettleWith(_, _, _) => SettleAnswered(w, c);
      case GiveUp(_) => GiveUpAnswered(w, c);
      case ReleaseAs(_, _) => ReleaseAnswered(w, c);
    }
  }

  // ---------------------------------------------------------------------
  // Resolved groups.

  predicate Final(s: State) {
    !IsActive(s)
  }

  /** A resolved group never changes again: each of its rows stays as it is, and
      it gains none. */
  predicate Frozen(rows: seq<Row>, later: seq<Row>, root: int) {
    && |rows| <= |later|
    && (forall i | 0 <= i < |rows| && rows[i].root == root :: later[i] == rows[i])
    && (forall i | 0 <= i < |rows| :: later[i].root == rows[i].root)
    && (forall i | |rows| <= i < |later| :: later[i].root != root)
  }

  lemma FinalIsFrozen(w: World, c: Command, root: int)
    requires Sane(w) && 1 <= root <= |w.db.rows| && w.db.rows[root - 1].root == root
    requires Final(w.db.rows[root - 1].state)
    ensures Frozen(w.db.rows, Do(w, c).db.rows, root)
  {
    assert Effect(w, c) by {
      EveryEffect(w, c);
    }
    EffectFreezes(w, c, root);
  }

  lemma EffectFreezes(w: World, c: Command, root: int)
    requires Effect(w, c) && RowsOk(w.db.rows, w.db.meta.currentEpoch)
    requires 1 <= root <= |w.db.rows| && w.db.rows[root - 1].root == root && Final(w.db.rows[root - 1].state)
    ensures Frozen(w.db.rows, Do(w, c).db.rows, root)
  {
    var rows, after, current := w.db.rows, Do(w, c).db.rows, w.db.meta.currentEpoch;
    forall i: nat | i < |rows| && rows[i].root == root ensures after[i] == rows[i] {
      SameGroup(rows, i, root - 1, current);
      FinalStays(w, c, i);
    }
    forall i: nat | |rows| <= i < |after| ensures after[i].root != root {
      NewRowElsewhere(rows, c, i, after[i], root, current);
    }
  }

  lemma NewRowElsewhere(rows: seq<Row>, c: Command, i: nat, r: Row, root: int, current: int)
    requires RowsOk(rows, current) && Appended(rows, c, i, r) && 1 <= root <= |rows| <= i
    requires rows[root - 1].root == root && Final(rows[root - 1].state)
    ensures r.root != root
  {
    if c.RollTo? && r.root == root {
      var j :| 0 <= j < |rows| && IsActive(rows[j].state)
          && r == rows[j].(id := r.id, epoch := r.epoch, settled := None);
      SameGroup(rows, j, root - 1, current);
    }
  }

  lemma MovementIsActive(w: World, c: Command)
    requires Movement(w, c).Some?
    ensures var id := Movement(w, c).value.0; 1 <= id <= |w.db.rows| && IsActive(w.db.rows[id - 1].state)
  {
  }

  lemma FinalStays(w: World, c: Command, i: nat)
    requires RowsOk(w.db.rows, w.db.meta.currentEpoch) && i < |w.db.rows| && Final(w.db.rows[i].state)
    ensures RowAfter(w, c, w.db.rows[i]) == w.db.rows[i]
  {
    var move := Movement(w, c);
    if move.Some? {
      MovementIsActive(w, c);
      UnmovedRow(w.db.rows, w.db.meta.currentEpoch, move.value.0, move.value.1, i);
    }
  }

  lemma UnmovedRow(rows: seq<Row>, current: int, id: int, p: Patch, i: nat)
    requires RowsOk(rows, current) && i < |rows| && 1 <= id <= |rows|
    requires Final(rows[i].state) && IsActive(rows[id - 1].state)
    ensures MovedRow(rows, Some((id, p)), rows[i]) == rows[i]
  {
    if rows[i].root == rows[id - 1].root {
      SameGroup(rows, i, id - 1, current);
    }
  }
}
