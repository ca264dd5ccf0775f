/** The startup verdict on whether the ledger can be trusted (`trust.rs`). */
module Trust {
  import opened Results
  import opened ReservationState
  import opened Tables

  datatype UnknownReason =
    | Uninitialized
    | ExternalMissing
    | ExternalUnreadable
    | ExternalBehindLedger
    | LedgerRolledBack
    | Inconsistent
    | UncleanShutdown

  datatype Verdict = Trusted | Unknown(reason: UnknownReason)

  /** `promote` names a group whose dispatch reached the external record but
      not the ledger. */
  datatype Assessment = Assessment(verdict: Verdict, promote: Option<int>)

  function Distrust(reason: UnknownReason): Assessment {
    Assessment(Unknown(reason), None)
  }

  /** The row with this id, as the ledger's primary-key lookup finds it. */
  function Lookup(rows: seq<Row>, id: int): Option<Row> {
    if |rows| == 0 then None
    else if rows[0].id == id then Some(rows[0])
    else Lookup(rows[1..], id)
  }

  function Assess(meta: Meta, external: External, rows: seq<Row>): Assessment {
    match external
    case Unreadable => Distrust(ExternalUnreadable)
    case Absent => Distrust(if meta.generation == 0 then Uninitialized else ExternalMissing)
    case Present(mark) =>
      if mark.generation < meta.generation || mark.cumulative < meta.cumulative then
        Distrust(ExternalBehindLedger)
      else
        var gap := mark.generation - meta.generation;
        var owed := mark.cumulative - meta.cumulative;
        var named := Lookup(rows, mark.last);
        if gap > 1 then Distrust(LedgerRolledBack)
        else if gap == 0 && owed != 0 then Distrust(Inconsistent)
        else if gap == 1 && !(named.Some? && named.value.state.Reserved? && named.value.liability == owed) then
          Distrust(LedgerRolledBack)
        else if gap == 1 && meta.clean then Distrust(Inconsistent)
        else
          Assessment(if meta.clean then Trusted else Unknown(UncleanShutdown),
                     if gap == 1 then Some(mark.last) else None)
  }

  /** The verdicts under which a RESERVED row is known never to have been sent. */
  predicate Interpretable(v: Verdict) {
    v.Trusted? || v.reason.UncleanShutdown?
  }

  /** The record agrees with the ledger. */
  predicate Agrees(meta: Meta, external: External) {
    external.Present? && external.mark.generation == meta.generation && external.mark.cumulative == meta.cumulative
  }

  /** The record is one dispatch ahead: it names a RESERVED row, whose liability is
      exactly what the record is ahead by. */
  predicate OneAhead(meta: Meta, external: External, rows: seq<Row>) {
    && external.Present? && external.mark.generation == meta.generation + 1
    && external.mark.cumulative >= meta.cumulative
    && var named := Lookup(rows, external.mark.last);
       named.Some? && named.value.state.Reserved? && named.value.liability == external.mark.cumulative - meta.cumulative
  }

  /** The verdict and the promotion, each with its exact condition: trust needs
      agreement and a clean shutdown; a dispatch is promoted when, after an unclean
      one, the record is exactly that dispatch ahead; and rows can be interpreted in
      those cases and in agreement after an unclean shutdown, never otherwise. */
  lemma VerdictExactly(meta: Meta, external: External, rows: seq<Row>)
    ensures var a := Assess(meta, external, rows);
            && (a.verdict.Trusted? <==> Agrees(meta, external) && meta.clean)
            && (a.promote.Some? <==> OneAhead(meta, external, rows) && !meta.clean)
            && (a.promote.Some? ==> a.promote.value == external.mark.last)
            && (Interpretable(a.verdict) <==> Agrees(meta, external) || (OneAhead(meta, external, rows) && !meta.clean))
  {
  }

  /** The record is behind the ledger in one of its two figures. */
  predicate Trails(meta: Meta, mark: HighWaterMark) {
    mark.generation < meta.generation || mark.cumulative < meta.cumulative
  }

  /** The exact condition of each of the seven reasons for distrust. */
  predicate Because(reason: UnknownReason, meta: Meta, external: External, rows: seq<Row>) {
    match reason
    case Uninitialized => external.Absent? && meta.generation == 0
    case ExternalMissing => external.Absent? && meta.generation != 0
    case ExternalUnreadable => external.Unreadable?
    case ExternalBehindLedger => external.Present? && Trails(meta, external.mark)
    case LedgerRolledBack =>
      && external.Present? && !Trails(meta, external.mark) && external.mark.generation > meta.generation
      && !OneAhead(meta, external, rows)
    case Inconsistent =>
      || (external.Present? && external.mark.generation == meta.generation
          && external.mark.cumulative > meta.cumulative)
      || (OneAhead(meta, external, rows) && meta.clean)
    case UncleanShutdown => (Agrees(meta, external) || OneAhead(meta, external, rows)) && !meta.clean
  }

  /** Distrust says why, and truly: the reason given is the one whose condition holds, and
      never do two hold. */
  lemma ReasonExactly(meta: Meta, external: External, rows: seq<Row>, reason: UnknownReason)
    ensures Assess(meta, external, rows).verdict == Unknown(reason) <==> Because(reason, meta, external, rows)
  {
  }
}
