/** What the request-list model predicts of every run of the ledger. */
module ModelPredictions {
  import opened Results
  import opened ReservationState
  import opened Tables
  import opened Trust
  import opened Transactions
  import opened LedgerInvariant
  import opened GroupTransitions
  import opened DailyRollover
  import opened Runs
  import opened RowEffects
  import opened GhostModel
  import opened Capacity
  import opened RequestModel
  import opened ModelRefines

  /** The model's and the ledger's ends of a run. */
  lemma Ends(cs: seq<Command>)
    ensures Tracked(Run(INITIAL, cs)) && View(Run(INITIAL, cs)) == ModelRun(BLANK, cs)
  {
    StartsBlank();
    RunRefines(INITIAL, cs);
  }

  /** The stored counters, over every run: the same pools are open with the same
      grants, `reserved` is what the model's active requests hold, and `consumed` what
      its requests charge and what it adopted. */
  lemma CountersAsPredicted(cs: seq<Command>)
    ensures var (db, m) := (Run(INITIAL, cs).db, ModelRun(BLANK, cs));
            && db.pools.Keys == m.grants.Keys == m.adopted.Keys
            && forall key | key in db.pools ::
                 db.pools[key] == Counters(m.grants[key], Consumed(m, key), GhostTotal(m.requests, key, Held))
  {
    Ends(cs);
    var w := Run(INITIAL, cs);
    assert View(w).grants.Keys == View(w).adopted.Keys == w.db.pools.Keys;
    forall key | key in w.db.pools ensures
      w.db.pools[key] == Counters(View(w).grants[key], Consumed(View(w), key), GhostTotal(View(w).requests, key, Held))
    {
      ViewCounts(w, key);
    }
  }

  /** What a call of `reserve` answers. */
  function Answer(w: World, request: Request, now: int): Result<(Tables, Admission), LedgerError> {
    if w.trust.Trusted? then Reserve(w.db, request, now) else Success((w.db, Refused(Untrusted(w.trust))))
  }

  /** Admission, over every run: each request is admitted, refused for a reason of a
      kind, or rejected as too large, exactly as the model expects; and the id is the
      model's next. */
  lemma AdmissionAsPredicted(cs: seq<Command>, request: Request, now: int)
    ensures var m := ModelRun(BLANK, cs);
            Answers(Answer(Run(INITIAL, cs), request, now), Expected(m, request, now), |m.owners| + 1)
  {
    Ends(cs);
    var w := Run(INITIAL, cs);
    assert |View(w).owners| == |w.db.rows|;
    if w.trust.Trusted? {
      AnswerAgrees(w, request, now);
    }
  }

  /** Every other call, over every run: it succeeds exactly when the model accepts it,
      dispatches and adoptions with lost commits included. */
  lemma OutcomesAsPredicted(cs: seq<Command>, c: Command)
    ensures Succeeds(Run(INITIAL, cs), c) <==> Accepts(ModelRun(BLANK, cs), c)
    ensures View(Do(Run(INITIAL, cs), c)) == ModelDo(ModelRun(BLANK, cs), c)
  {
    Ends(cs);
    StepRefines(Run(INITIAL, cs), c);
  }

  /** And what it returns: how many requests a rollover carried, how a settlement came
      out, and how a start assessed the ledger. */
  lemma AnswersAsPredicted(cs: seq<Command>, c: Command)
    requires Accepts(ModelRun(BLANK, cs), c)
    ensures var (w, m) := (Run(INITIAL, cs), ModelRun(BLANK, cs));
            && (c.RollTo? && m.epoch < c.epoch ==>
                  && Transactions.Rollover(w.db, c.epoch, c.grants).Success?
                  && Transactions.Rollover(w.db, c.epoch, c.grants).value.1 == Advanced(|ActiveIds(m.requests)|))
            && (c.SettleWith? ==>
                  && Owner(m, c.id).Some? && SettleGroup(w.db, c.id, c.response, c.rev).Success?
                  && SettleGroup(w.db, c.id, c.response, c.rev).value.1 ==
                     SettleAnswer(RowOf(Owner(m, c.id).value), c.response, c.rev))
            && (c.Open? ==> Assess(w.db.meta, w.ext, w.db.rows) == ModelAssess(m))
  {
    Ends(cs);
    var w := Run(INITIAL, cs);
    if c.RollTo? {
      RollingIs(w, c.epoch, c.grants);
      CopiesInOrder(w);
    } else if c.SettleWith? {
      SettledAnswer(w, c);
    } else if c.Open? {
      AssessAgrees(w);
    }
  }

  lemma SettledAnswer(w: World, c: Command)
    requires Tracked(w) && c.SettleWith? && GroupLegal(View(w), c)
    ensures SettleGroup(w.db, c.id, c.response, c.rev).Success?
    ensures Owner(View(w), c.id).Some?
    ensures SettleGroup(w.db, c.id, c.response, c.rev).value.1 ==
            SettleAnswer(RowOf(Owner(View(w), c.id).value), c.response, c.rev)
  {
    LegalAgrees(w, c);
    OwnerReads(w, c.id);
    SettleOutcome(w.db, c.id, c.response, c.rev);
    AlikeSettles(Owner(View(w), c.id).value, w.db.rows[c.id - 1], c.response, c.rev);
  }

  lemma SettleOutcome(db: Tables, id: int, response: Completed, rev: int)
    requires Valid(db) && SettleGroup(db, id, response, rev).Success?
    ensures 1 <= id <= |db.rows|
    ensures SettleGroup(db, id, response, rev).value.1 == SettleAnswer(db.rows[id - 1], response, rev)
  {
    SettleSound(db, id, response, rev);
  }

  lemma AlikeSettles(g: Ghost, r: Row, response: Completed, rev: int)
    requires Alike(g, r)
    ensures SettleAnswer(RowOf(g), response, rev) == SettleAnswer(r, response, rev)
  {
  }

  // ---------------------------------------------------------------------
  // The bound on the model.

  /** What a settled request was charged beyond its liability. */
  function Overrun(g: Ghost): int {
    if g.state.Settled? && g.settled.Some? && g.settled.value > g.liability then g.settled.value - g.liability else 0
  }

  function Excess(requests: seq<Ghost>, key: Key): int {
    if |requests| == 0 then 0
    else
      var here := requests[0].pool == key.0 && key.1 in requests[0].epochs;
      (if here then Overrun(requests[0]) else 0) + Excess(requests[1..], key)
  }

  lemma {:induction false} ExposedAndExcess(requests: seq<Ghost>, key: Key)
    ensures GhostTotal(requests, key, Held) + GhostTotal(requests, key, Charged) ==
            GhostTotal(requests, key, Exposed) + Excess(requests, key)
  {
    if |requests| != 0 {
      ExposedAndExcess(requests[1..], key);
    }
  }

  /** The bound, in the model's terms: while rollovers are granted enough for what they
      carry, everything the requests of a pool and epoch hold or were charged fits its
      grant, but for what providers reported beyond a request's liability. */
  lemma RequestsWithinGrant(cs: seq<Command>, key: Key)
    requires AllCovered(INITIAL, cs) && key in ModelRun(BLANK, cs).grants
    ensures var m := ModelRun(BLANK, cs);
            GhostTotal(m.requests, key, Held) + GhostTotal(m.requests, key, Charged)
            <= m.grants[key] + Excess(m.requests, key)
  {
    Ends(cs);
    ExposureNeverExceedsGrant(cs);
    var w := Run(INITIAL, cs);
    TotalsAgree(w.db.rows, w.db.meta.currentEpoch, key, Exposed);
    ExposedAndExcess(View(w).requests, key);
  }
}
