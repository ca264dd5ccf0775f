/**
What a supervisor does next and where that leaves its group (`dispatch.rs`, `status_policy.rs`): on the answer to its
request, on a reported completion, and when the stream stops.
*/
module SupervisorActs {
  import opened Results
  import opened ReservationState
  import opened Tables
  import opened Trust
  import opened Transactions
  import opened LedgerInvariant
  import opened AdmissionRule
  import opened Runs
  import opened RowEffects
  import opened GroupCalls
  import opened Supervision
  import opened Resolution
  import opened Interleaving

  function StateOf(s: System, id: int): State
    requires Head(s.world.db.rows, id)
  {
    s.world.db.rows[id - 1].state
  }

  /** A supervisor at work knows its group. */
  lemma Supervised(es: seq<Event>, id: int)
    requires id in Play(START, es).supervisors
    ensures var s := Play(START, es);
            && Sane(s.world) && Head(s.world.db.rows, id)
            && AtPhase(s.world.db.rows[id - 1], id, s.supervisors[id].phase, s.world.hist.begun, s.sent)
  {
    StartOk();
    PlayOk(START, es);
  }

  // ---------------------------------------------------------------------
  // The answer.

  /** Refused by the request's own fault, or the account's, or by the rate limit: never processed. */
  predicate NeverProcessed(status: int) {
    400 <= status <= 404 || status == 422 || status == 429
  }

  lemma PhaseFollows(s: System, e: Event, id: int, p: Phase)
    requires Enabled(s, e) && !e.Crashes? && !e.Grants? && id in s.supervisors
    requires PhaseAfter(s, e, CallSucceeds(s, e)) == Some((id, p))
    ensures PhaseOf(Step(s, e), id) == p
  {
  }

  lemma AnswerPhase(s: System, id: int, status: int, delivered: bool)
    requires id in s.supervisors && PhaseOf(s, id).Awaiting?
    ensures var t := Step(s, Answers(id, status, delivered));
            && t.world == s.world && id in t.supervisors && t.evidence == s.evidence
            && PhaseOf(t, id) == if 200 <= status < 300 then Relaying(None, false, delivered)
                                 else if NeverProcessed(status) then Rejecting(status) else Holding
  {
    var e := Answers(id, status, delivered);
    assert Enabled(s, e) && CallOf(s, e).None?;
  }

  lemma RejectsTo(s: System, id: int)
    requires Sane(s.world) && Head(s.world.db.rows, id) && StateOf(s, id).Dispatching? && PhaseOf(s, id).Rejecting?
    ensures var t := Step(s, Rejects(id));
            && Head(t.world.db.rows, id) && StateOf(t, id) == RejectedBeforeProcessing && PhaseOf(t, id).Ended?
            && t.evidence == s.evidence + [(id, RefusedWith(PhaseOf(s, id).status))]
  {
    RejectExactly(s.world, id);
    PhaseFollows(s, Rejects(id), id, Ended);
  }

  lemma HoldsTo(s: System, id: int)
    requires Sane(s.world) && Head(s.world.db.rows, id) && StateOf(s, id).Dispatching? && PhaseOf(s, id).Holding?
    ensures var t := Step(s, Holds(id));
            && Head(t.world.db.rows, id) && StateOf(t, id) == DispatchedIdUnknown && PhaseOf(t, id).Ended?
            && t.evidence == s.evidence
  {
    LoseIdExactly(s.world, id);
    PhaseFollows(s, Holds(id), id, Ended);
  }

  /** What an HTTP status comes to, in any run. A success is relayed. The refusals that prove
      nothing was processed are released by the supervisor's next call, and every other
      answer, redirects and server errors among them, is held as sent with an unknown id. */
  lemma AnswerDecides(es: seq<Event>, id: int, status: int, delivered: bool)
    requires id in Play(START, es).supervisors && PhaseOf(Play(START, es), id).Awaiting?
    ensures var s := Step(Play(START, es), Answers(id, status, delivered));
            && Head(s.world.db.rows, id) && StateOf(s, id).Dispatching?
            && (if 200 <= status < 300 then PhaseOf(s, id) == Relaying(None, false, delivered)
                else if NeverProcessed(status) then
                  && PhaseOf(s, id) == Rejecting(status)
                  && var t := Step(s, Rejects(id));
                     && Head(t.world.db.rows, id) && StateOf(t, id) == RejectedBeforeProcessing && PhaseOf(t, id).Ended?
                     && t.evidence == Play(START, es).evidence + [(id, RefusedWith(status))]
                else
                  && PhaseOf(s, id) == Holding
                  && var t := Step(s, Holds(id));
                     && Head(t.world.db.rows, id) && StateOf(t, id) == DispatchedIdUnknown && PhaseOf(t, id).Ended?
                     && t.evidence == Play(START, es).evidence)
  {
    var before := Play(START, es);
    Supervised(es, id);
    AnswerPhase(before, id, status, delivered);
    var s := Step(before, Answers(id, status, delivered));
    if NeverProcessed(status) {
      RejectsTo(s, id);
    } else if !(200 <= status < 300) {
      HoldsTo(s, id);
    }
  }

  // ---------------------------------------------------------------------
  // A completion.

  /** The supervisor settles with its own accounting revision: a usable report is charged as
      it is and anything else in full, unless a counter is full or retrieval was first. */
  lemma CompletionCharges(es: seq<Event>, id: int, response: Completed)
    requires id in Play(START, es).supervisors
    requires PhaseOf(Play(START, es), id).Relaying? && !PhaseOf(Play(START, es), id).settled
    ensures var s := Play(START, es);
            var t := Step(s, Completes(id, response));
            && Head(s.world.db.rows, id)
            && var head, rev := s.world.db.rows[id - 1], s.supervisors[id].rev;
               var good, due := Chargeable(head, response, rev), Due(head, response, rev);
               if !InState(s.world.db.rows, id, {Dispatching, DispatchedWithId}) || Overfull(s.world.db, id, due)
               then t.world == s.world && PhaseOf(t, id) == LedgerFailed && t.evidence == s.evidence
               else
                 && t.evidence == s.evidence + [(id, Reported(response, rev))]
                 && Commits(s.world.db, t.world.db, id, if good then Settled else ConsumedUnrecoverable,
                            if good then Some(due) else None, due)
                 && PhaseOf(t, id) == PhaseOf(s, id).(settled := true)
  {
    var s := Play(START, es);
    Supervised(es, id);
    SettleExactly(s.world, id, response, s.supervisors[id].rev);
    var e := Completes(id, response);
    PhaseFollows(s, e, id, if CallSucceeds(s, e) then PhaseOf(s, id).(settled := true) else LedgerFailed);
  }

  // ---------------------------------------------------------------------
  // The stream stops.

  /** The relay is over, or nobody hears it any more. */
  predicate Stops(s: System, e: Event) {
    && (e.Ends? || e.Abandons?) && e.id in s.supervisors && PhaseOf(s, e.id).Relaying?
    && (e.Abandons? ==> !PhaseOf(s, e.id).settled && !PhaseOf(s, e.id).listening)
  }

  lemma StopsQuietly(s: System, e: Event)
    requires Stops(s, e) && (PhaseOf(s, e.id).settled || s.supervisors[e.id].background)
    ensures var t := Step(s, e);
            && t.world == s.world && e.id in t.supervisors && t.evidence == s.evidence
            && PhaseOf(t, e.id) ==
               if PhaseOf(s, e.id).settled || PhaseOf(s, e.id).name.Some? then Ended else Holding
  {
    assert CallOf(s, e).None?;
  }

  /** A client that hangs up leaves the ledger as it is; from then on the supervisor of an
      unsettled response may give up listening. */
  lemma HangUp(s: System, id: int)
    requires id in s.supervisors && PhaseOf(s, id).Relaying?
    ensures var t := Step(s, Disconnects(id));
            && t.world == s.world && id in t.supervisors
            && PhaseOf(t, id).Relaying? && PhaseOf(t, id).name == PhaseOf(s, id).name
            && PhaseOf(t, id).settled == PhaseOf(s, id).settled
            && (Stops(t, Abandons(id)) <==> !PhaseOf(s, id).settled)
            && (Enabled(t, Abandons(id)) <==> !PhaseOf(s, id).settled)
  {
    assert CallOf(s, Disconnects(id)).None?;
  }

  /** What writing off does, or why nothing happens. */
  predicate WrittenOffOrNot(s: System, t: System, id: int, refused: bool)
    requires Head(s.world.db.rows, id)
  {
    var liability := s.world.db.rows[id - 1].liability;
    if refused || Overfull(s.world.db, id, liability)
    then t.world == s.world && PhaseOf(t, id) == LedgerFailed && t.evidence == s.evidence
    else && Commits(s.world.db, t.world.db, id, ConsumedUnrecoverable, None, liability)
         && PhaseOf(t, id) == Ended && t.evidence == s.evidence + [(id, GivenUp(UsageUnobserved))]
  }

  lemma StopsCalling(s: System, e: Event)
    requires Stops(s, e) && !PhaseOf(s, e.id).settled && !s.supervisors[e.id].background
    ensures Step(s, e).world == Do(s.world, GiveUp(e.id))
    ensures PhaseOf(Step(s, e), e.id) == if Succeeds(s.world, GiveUp(e.id)) then Ended else LedgerFailed
    ensures Step(s, e).evidence ==
            s.evidence + if Succeeds(s.world, GiveUp(e.id)) then [(e.id, GivenUp(UsageUnobserved))] else []
  {
    assert CallOf(s, e) == Some(GiveUp(e.id));
  }

  lemma WrittenOffIs(w: World, id: int)
    requires Sane(w) && Head(w.db.rows, id)
    ensures var refused := !InState(w.db.rows, id, {Dispatching, DispatchedWithId, DispatchedIdUnknown});
            var liability := w.db.rows[id - 1].liability;
            && (Succeeds(w, GiveUp(id)) <==> !(refused || Overfull(w.db, id, liability)))
            && (if refused || Overfull(w.db, id, liability) then Do(w, GiveUp(id)) == w
                else Commits(w.db, Do(w, GiveUp(id)).db, id, ConsumedUnrecoverable, None, liability)) == true
  {
    WriteOffExactly(w.db, id);
  }

  lemma StopsWritingOff(s: System, e: Event)
    requires Sane(s.world) && Stops(s, e) && Head(s.world.db.rows, e.id)
    requires !PhaseOf(s, e.id).settled && !s.supervisors[e.id].background
    ensures WrittenOffOrNot(s, Step(s, e), e.id,
                            !InState(s.world.db.rows, e.id, {Dispatching, DispatchedWithId, DispatchedIdUnknown}))
  {
    StopsCalling(s, e);
    WrittenOffIs(s.world, e.id);
  }

  /** What stopping does when the supervisor makes no call of its own. */
  predicate LeftToOthers(s: System, t: System, id: int)
    requires id in s.supervisors && Head(s.world.db.rows, id) && PhaseOf(s, id).Relaying?
  {
    && t.world == s.world && t.evidence == s.evidence
    && if PhaseOf(s, id).settled then PhaseOf(t, id) == Ended
       else if PhaseOf(s, id).name.Some? then
         PhaseOf(t, id) == Ended && (StateOf(s, id) == DispatchedWithId || Final(StateOf(s, id)))
       else
         && PhaseOf(t, id) == Holding
         && var u := Step(t, Holds(id));
            Head(u.world.db.rows, id) && StateOf(u, id) == DispatchedIdUnknown && PhaseOf(u, id).Ended?
  }

  lemma StopsLeaving(s: System, e: Event)
    requires Sane(s.world) && Stops(s, e) && Head(s.world.db.rows, e.id)
    requires AtPhase(s.world.db.rows[e.id - 1], e.id, PhaseOf(s, e.id), s.world.hist.begun, s.sent)
    requires PhaseOf(s, e.id).settled || s.supervisors[e.id].background
    ensures LeftToOthers(s, Step(s, e), e.id)
  {
    StopsQuietly(s, e);
    if !PhaseOf(s, e.id).settled && PhaseOf(s, e.id).name.None? {
      HoldsTo(Step(s, e), e.id);
    }
  }

  /** A stream that stops, in any run. After a settlement nothing is left to do. Before one, a
      synchronous response is written off in full there and then; one in the background is
      left to retrieval if its id is known, and held as unknown if not. */
  lemma StopDecides(es: seq<Event>, e: Event)
    requires Stops(Play(START, es), e)
    ensures var s := Play(START, es);
            && Head(s.world.db.rows, e.id)
            && (if PhaseOf(s, e.id).settled || s.supervisors[e.id].background then LeftToOthers(s, Step(s, e), e.id)
                else WrittenOffOrNot(s, Step(s, e), e.id, Final(StateOf(s, e.id)))) == true
  {
    var s := Play(START, es);
    Supervised(es, e.id);
    if PhaseOf(s, e.id).settled || s.supervisors[e.id].background {
      StopsLeaving(s, e);
    } else {
      StopsWritingOff(s, e);
    }
  }

  // ---------------------------------------------------------------------
  // Its orders.

  lemma Granted(s: System, request: Request, now: int, background: bool, rev: int)
    requires Sane(s.world)
    ensures var t := Step(s, Grants(request, now, background, rev));
            var id := |s.world.db.rows| + 1;
            if |t.world.db.rows| == |s.world.db.rows| then t.supervisors == s.supervisors
            else t.supervisors == s.supervisors[id := Supervisor(Permitted, background, rev)]
  {
    ReserveSound(s.world.db, request, now);
  }

  /** Each granted request has a supervisor of its own, with the request's mode and revision,
      and no other request has. */
  lemma GrantSupervises(es: seq<Event>, request: Request, now: int, background: bool, rev: int)
    ensures var s := Play(START, es);
            var t := Step(s, Grants(request, now, background, rev));
            var id := |s.world.db.rows| + 1;
            if |t.world.db.rows| == |s.world.db.rows| then t.supervisors == s.supervisors
            else t.supervisors == s.supervisors[id := Supervisor(Permitted, background, rev)]
  {
    StartOk();
    PlayOk(START, es);
    Granted(Play(START, es), request, now, background, rev);
  }

  /** The orders never change while the supervisor lives, and only a crash ends one early. */
  lemma OrdersStay(s: System, e: Event, id: int)
    requires id in s.supervisors && !e.Crashes?
    requires Sane(s.world) && Head(s.world.db.rows, id)
    ensures var t := Step(s, e);
            && id in t.supervisors
            && t.supervisors[id].background == s.supervisors[id].background
            && t.supervisors[id].rev == s.supervisors[id].rev
  {
    if e.Grants? {
      Granted(s, e.request, e.now, e.background, e.rev);
    }
  }
}
