/** Every step of every actor keeps the invariant of exactly-once resolution. */
module Interleaving {
  import opened Results
  import opened ReservationState
  import opened Tables
  import opened Trust
  import opened Transactions
  import opened LedgerInvariant
  import opened GroupTransitions
  import opened Recovery
  import opened Runs
  import opened WriteAhead
  import opened Accounts
  import opened RowEffects
  import opened Supervision
  import opened Resolution

  // ---------------------------------------------------------------------
  // An actor's call on its group.

  /** The actor making this call: the supervisor, or else the sweep. */
  predicate BySweep(e: Event) {
    e.WritesOff? || e.Retrieves?
  }

  predicate ByActor(s: System, e: Event) {
    Enabled(s, e) && CallOf(s, e).Some? && OnGroup(CallOf(s, e).value)
  }

  lemma SweepKnows(s: System, e: Event)
    requires QueueOk(s.world.db.rows, s.queue) && Enabled(s, e) && BySweep(e)
    ensures var id := s.queue[0].id;
            && Head(s.world.db.rows, id)
            && StillAs(s.queue[0], s.world.db.rows[id - 1])
            && CallOf(s, e).Some? && CallOf(s, e).value.id == id
            && (CallOf(s, e).value.SettleWith? || CallOf(s, e).value.GiveUp?)
  {
  }

  lemma OwnerKnows(s: System, e: Event)
    requires SupervisorsOk(s.world.db.rows, s.supervisors, s.world.hist.begun, s.sent)
    requires ByActor(s, e) && !BySweep(e)
    ensures e.HeldBack? || e.Begins? || e.Unsends? || e.Rejects? || e.Holds? || e.Names? || e.Completes? || e.Abandons? || e.Ends?
    ensures && e.id in s.supervisors && CallOf(s, e).value.id == e.id
            && Head(s.world.db.rows, e.id)
            && AtPhase(s.world.db.rows[e.id - 1], e.id, s.supervisors[e.id].phase, s.world.hist.begun, s.sent)
  {
  }

  /** The evidence a call rests on is what its update records. */
  lemma EvidenceMatches(s: System, e: Event, r: Row, later: Row)
    requires ByActor(s, e) && Head(s.world.db.rows, CallOf(s, e).value.id)
    requires r == s.world.db.rows[CallOf(s, e).value.id - 1]
    requires later == Patched(r, Moves(s.world, CallOf(s, e).value))
    requires e.Rejects? ==> RefusedUnprocessed(s.supervisors[e.id].phase.status)
    ensures match EvidenceOf(s, e)
            case Some(entry) => entry.0 == CallOf(s, e).value.id && Matches(later, entry.1)
            case None => IsActive(later.state) || later.state.ReleasedUnsent?
  {
  }

  /** A supervisor's own call leaves it knowing its group's state. */
  lemma OwnPhase(s: System, e: Event, r: Row, begun: set<int>)
    requires ByActor(s, e) && !BySweep(e) && Head(s.world.db.rows, e.id) && e.id in s.supervisors
    requires r == s.world.db.rows[e.id - 1] && s.world.hist.begun <= begun
    requires AtPhase(r, e.id, s.supervisors[e.id].phase, s.world.hist.begun, s.sent)
    requires e.Begins? ==> e.id in begun
    requires AllowedFrom(Needs(CallOf(s, e).value), r.state)
    ensures SupervisorsAfter(s, e, true) == s.supervisors[e.id := SupervisorsAfter(s, e, true)[e.id]]
    ensures AtPhase(Patched(r, Moves(s.world, CallOf(s, e).value)), e.id, SupervisorsAfter(s, e,
        true)[e.id].phase, begun, s.sent)
  {
  }

  /** Retrieval can resolve a group only under a supervisor that expects it. */
  lemma SweptPhase(w: World, c: Command, r: Row, p: Phase, begun: set<int>, after: set<int>, sent: set<int>)
    requires (c.SettleWith? || c.GiveUp?) && Head(w.db.rows, c.id) && r == w.db.rows[c.id - 1]
    requires AtPhase(r, c.id, p, begun, sent) && Swept(r.state) && AllowedFrom(Needs(c), r.state) && begun <= after
    ensures AtPhase(Patched(r, Moves(w, c)), c.id, p, after, sent)
    ensures KeepsSwept(r, Patched(r, Moves(w, c)))
  {
  }

  /** The moved rows, evidence, supervisors and queue agree again. */
  lemma Reconciled(s: System, later: seq<Row>, id: int, p: Patch, t: System)
    requires ActorsOk(s) && HeadMoved(s.world.db.rows, later, id, p)
    requires t.world.db.rows == later && s.world.hist.begun <= t.world.hist.begun && t.sent == s.sent
    requires IsActive(s.world.db.rows[id - 1].state)
    requires (t.evidence == s.evidence && (IsActive(later[id - 1].state) || later[id - 1].state.ReleasedUnsent?))
             || (|t.evidence| > 0 && t.evidence == s.evidence + [(id, t.evidence[|t.evidence| - 1].1)]
                 && Matches(later[id - 1], t.evidence[|t.evidence| - 1].1))
    requires t.supervisors.Keys == s.supervisors.Keys
    requires forall j | j in s.supervisors && j != id :: t.supervisors[j] == s.supervisors[j]
    requires id in t.supervisors ==> AtPhase(later[id - 1], id, t.supervisors[id].phase, t.world.hist.begun, s.sent)
    requires t.queue == s.queue || t.queue == [] || (s.queue != [] && t.queue == s.queue[1..])
    requires KeepsSwept(s.world.db.rows[id - 1], later[id - 1])
    ensures ActorsOk(t)
  {
    var rows := s.world.db.rows;
    if t.evidence == s.evidence {
      MoveUnresolved(rows, later, id, p, s.evidence);
    } else {
      MoveResolved(rows, later, id, p, s.evidence, t.evidence[|t.evidence| - 1].1);
    }
    MoveKeepsSupervisors(rows, later, id, p, s, t);
    MoveKeepsQueue(rows, later, id, p, s.queue);
  }

  /** What a successful call leaves in the ledger. */
  ghost predicate Lands(w: World, c: Command, after: World)
    requires OnGroup(c) && Head(w.db.rows, c.id)
  {
    && AllowedFrom(Needs(c), w.db.rows[c.id - 1].state)
    && HeadMoved(w.db.rows, after.db.rows, c.id, Moves(w, c))
    && w.hist.begun <= after.hist.begun
    && (c.Begin? ==> c.id in after.hist.begun)
  }

  lemma CallLands(w: World, c: Command)
    requires Protocol(w) && OnGroup(c) && Head(w.db.rows, c.id) && Succeeds(w, c)
    ensures Lands(w, c, Do(w, c))
  {
    CallMoves(w, c);
    BegunGrows(w, c);
    if c.Begin? {
      CommittedIsBegun(w, c);
    }
  }

  function Updated(s: System, e: Event, after: World): System
    requires ByActor(s, e)
  {
    System(after, SupervisorsAfter(s, e, true), QueueAfter(s, e, true), s.sent,
           if EvidenceOf(s, e).Some? then s.evidence + [EvidenceOf(s, e).value] else s.evidence)
  }

  lemma SweepLands(s: System, e: Event, after: World)
    requires ActorsOk(s) && ByActor(s, e) && BySweep(e) && Head(s.world.db.rows, CallOf(s, e).value.id)
    requires Lands(s.world, CallOf(s, e).value, after)
    ensures ActorsOk(Updated(s, e, after))
  {
    var c := CallOf(s, e).value;
    var r := s.world.db.rows[c.id - 1];
    SweepKnows(s, e);
    EvidenceMatches(s, e, r, after.db.rows[c.id - 1]);
    if c.id in s.supervisors {
      SweptPhase(s.world, c, r, s.supervisors[c.id].phase, s.world.hist.begun, after.hist.begun, s.sent);
    }
    Reconciled(s, after.db.rows, c.id, Moves(s.world, c), Updated(s, e, after));
  }

  lemma OwnLands(s: System, e: Event, after: World)
    requires ActorsOk(s) && ByActor(s, e) && !BySweep(e) && Head(s.world.db.rows, CallOf(s, e).value.id)
    requires Lands(s.world, CallOf(s, e).value, after)
    ensures ActorsOk(Updated(s, e, after))
  {
    OwnerKnows(s, e);
    var r := s.world.db.rows[e.id - 1];
    EvidenceMatches(s, e, r, after.db.rows[e.id - 1]);
    OwnPhase(s, e, r, after.hist.begun);
    OwnSwept(s, e, r);
    Reconciled(s, after.db.rows, e.id, Moves(s.world, CallOf(s, e).value), Updated(s, e, after));
  }

  lemma OwnSwept(s: System, e: Event, r: Row)
    requires ByActor(s, e) && !BySweep(e) && Head(s.world.db.rows, CallOf(s, e).value.id)
    requires AllowedFrom(Needs(CallOf(s, e).value), r.state)
    ensures IsActive(r.state)
    ensures KeepsSwept(r, Patched(r, Moves(s.world, CallOf(s, e).value)))
    ensures QueueAfter(s, e, true) == s.queue
  {
  }

  lemma ActorHead(s: System, e: Event)
    requires ActorsOk(s) && ByActor(s, e)
    ensures Head(s.world.db.rows, CallOf(s, e).value.id)
  {
  }

  lemma ActorLands(s: System, e: Event, after: World)
    requires ActorsOk(s) && ByActor(s, e) && Head(s.world.db.rows, CallOf(s, e).value.id)
    requires Lands(s.world, CallOf(s, e).value, after)
    ensures ActorsOk(Updated(s, e, after))
  {
    if BySweep(e) {
      SweepLands(s, e, after);
    } else {
      OwnLands(s, e, after);
    }
  }

  lemma StepUpdates(s: System, e: Event)
    requires ByActor(s, e) && CallSucceeds(s, e)
    ensures Step(s, e) == Updated(s, e, Do(s.world, CallOf(s, e).value))
  {
  }

  lemma ActorStep(s: System, e: Event)
    requires Protocol(s.world) && ActorsOk(s) && ByActor(s, e) && CallSucceeds(s, e)
    ensures ActorsOk(Step(s, e))
  {
    var c := CallOf(s, e).value;
    ActorHead(s, e);
    assert Lands(s.world, c, Do(s.world, c)) by {
      CallLands(s.world, c);
    }
    ActorLands(s, e, Do(s.world, c));
    StepUpdates(s, e);
  }

  // ---------------------------------------------------------------------
  // Every other step.

  /** Steps that move no row: at most supervisor `id` changes phase. */
  lemma Unmoved(s: System, t: System, id: int)
    requires ActorsOk(s)
    requires t.world.db.rows == s.world.db.rows && s.world.hist.begun <= t.world.hist.begun
    requires t.evidence == s.evidence && t.supervisors.Keys == s.supervisors.Keys
    requires forall j | j in s.supervisors && j != id :: t.supervisors[j] == s.supervisors[j]
    requires forall j | j != id :: j in t.sent <==> j in s.sent
    requires t.sent <= t.world.hist.begun
    requires id in t.supervisors ==>
               AtPhase(s.world.db.rows[id - 1], id, t.supervisors[id].phase, t.world.hist.begun, t.sent)
    requires QueueOk(s.world.db.rows, t.queue)
    ensures ActorsOk(t)
  {
  }

  lemma FailedPhase(s: System, e: Event, r: Row, begun: set<int>)
    requires ByActor(s, e) && !BySweep(e) && e.id in s.supervisors && s.world.hist.begun <= begun
    requires AtPhase(r, e.id, s.supervisors[e.id].phase, s.world.hist.begun, s.sent)
    ensures SupervisorsAfter(s, e, false) == s.supervisors[e.id := SupervisorsAfter(s, e, false)[e.id]]
    ensures AtPhase(r, e.id, SupervisorsAfter(s, e, false)[e.id].phase, begun, s.sent)
    ensures QueueAfter(s, e, false) == s.queue
  {
  }

  function Rebuffed(s: System, e: Event, after: World): System
    requires ByActor(s, e)
  {
    System(after, SupervisorsAfter(s, e, false), QueueAfter(s, e, false), s.sent, s.evidence)
  }

  lemma StepRebuffs(s: System, e: Event)
    requires ByActor(s, e) && !CallSucceeds(s, e)
    ensures Step(s, e) == Rebuffed(s, e, Do(s.world, CallOf(s, e).value))
  {
  }

  lemma ActorRebuffed(s: System, e: Event, after: World)
    requires ActorsOk(s) && ByActor(s, e)
    requires after.db == s.world.db && s.world.hist.begun <= after.hist.begun
    ensures ActorsOk(Rebuffed(s, e, after))
  {
    if BySweep(e) {
      Unmoved(s, Rebuffed(s, e, after), 0);
    } else {
      OwnerKnows(s, e);
      FailedPhase(s, e, s.world.db.rows[e.id - 1], after.hist.begun);
      Unmoved(s, Rebuffed(s, e, after), e.id);
    }
  }

  /** A failed call moves nothing; only its own actor learns of it. */
  lemma FailedStep(s: System, e: Event)
    requires Protocol(s.world) && ActorsOk(s) && ByActor(s, e) && !CallSucceeds(s, e)
    ensures ActorsOk(Step(s, e))
  {
    var c := CallOf(s, e).value;
    BegunGrows(s.world, c);
    FailedCallMovesNothing(s.world, c);
    ActorRebuffed(s, e, Do(s.world, c));
    StepRebuffs(s, e);
  }

  /** Steps of the sweep itself. */
  predicate OfSweep(e: Event) {
    e.Sweeps? || e.Skips? || e.SweepBreaks?
  }

  predicate Quiet(s: System, e: Event) {
    Enabled(s, e) && CallOf(s, e).None?
  }

  lemma QuietPhase(s: System, e: Event, r: Row)
    requires Quiet(s, e) && !OfSweep(e) && e.id in s.supervisors
    requires AtPhase(r, e.id, s.supervisors[e.id].phase, s.world.hist.begun, s.sent) && s.sent <= s.world.hist.begun
    ensures SupervisorsAfter(s, e, true) == s.supervisors[e.id := SupervisorsAfter(s, e, true)[e.id]]
    ensures AtPhase(r, e.id, SupervisorsAfter(s, e, true)[e.id].phase, s.world.hist.begun, Step(s, e).sent)
    ensures Step(s, e).sent <= s.world.hist.begun
    ensures QueueAfter(s, e, true) == s.queue
  {
  }

  lemma QuietParts(s: System, e: Event)
    requires Quiet(s, e)
    ensures Step(s, e) == s.(supervisors := SupervisorsAfter(s, e, true), queue := QueueAfter(s, e, true),
        sent := Step(s, e).sent)
    ensures OfSweep(e) ==> Step(s, e) == s.(queue := QueueAfter(s, e, true))
    ensures !OfSweep(e) ==>
              && (e.HeldBack? || e.Sends? || e.Fails? || e.Answers? || e.Disconnects? || e.Abandons? || e.Ends?
                  || e.Breaks?)
              && e.id in s.supervisors
              && forall j | j != e.id :: j in Step(s, e).sent <==> j in s.sent
  {
  }

  /** Steps without a ledger call. */
  lemma QuietStep(s: System, e: Event)
    requires RowsOk(s.world.db.rows, s.world.db.meta.currentEpoch) && ActorsOk(s) && Quiet(s, e)
    ensures ActorsOk(Step(s, e))
  {
    QuietParts(s, e);
    if OfSweep(e) {
      SweepsOk(s.world.db.rows, s.world.db.meta.currentEpoch);
      Unmoved(s, Step(s, e), 0);
    } else {
      assert Head(s.world.db.rows, e.id);
      QuietPhase(s, e, s.world.db.rows[e.id - 1]);
      Unmoved(s, Step(s, e), e.id);
    }
  }

  lemma SweepsOk(rows: seq<Row>, current: int)
    requires RowsOk(rows, current)
    ensures QueueOk(rows, OpenDispatches(rows))
  {
    forall i | 0 <= i < |rows| ensures rows[i].id == i + 1 {
      assert Placed(rows, i, current);
    }
    SweepReads(rows, 0, rows);
  }

  lemma {:induction false} SweepReads(rows: seq<Row>, at: nat, part: seq<Row>)
    requires at <= |rows| && part == rows[at..]
    requires forall i | 0 <= i < |rows| :: rows[i].id == i + 1
    ensures QueueOk(rows, OpenDispatches(part))
    decreases |part|
  {
    if |part| != 0 {
      SweepReads(rows, at + 1, part[1..]);
      assert part[0] == rows[at];
    }
  }

  /** Calls from elsewhere move no group. */
  lemma ElsewhereStep(s: System, e: Event)
    requires Protocol(s.world) && ActorsOk(s) && e.Environment? && Enabled(s, e)
    ensures ActorsOk(Step(s, e))
  {
    var later := Do(s.world, e.c);
    ElsewhereGrows(s.world, e.c);
    BegunGrows(s.world, e.c);
    ElsewhereOk(s, later);
    assert Step(s, e) == s.(world := later);
  }

  lemma ElsewhereOk(s: System, later: World)
    requires ActorsOk(s) && Grown(s.world.db.rows, later.db.rows) && s.world.hist.begun <= later.hist.begun
    ensures ActorsOk(s.(world := later))
  {
  }

  predicate Admitted(s: System, e: Event)
    requires e.Grants?
  {
    var r := Transactions.Reserve(s.world.db, e.request, e.now);
    s.world.trust.Trusted? && r.Success? && r.value.1.Admitted?
  }

  /** A granted permit is for a new group that nobody has sent. */
  lemma GrantLands(w: World, e: Event)
    requires Protocol(w) && e.Grants? && w.trust.Trusted?
    requires var r := Transactions.Reserve(w.db, e.request, e.now); r.Success? && r.value.1.Admitted?
    ensures var id := Transactions.Reserve(w.db, e.request, e.now).value.1.id;
            var later := Do(w, Admit(e.request, e.now)).db.rows;
            id == |w.db.rows| + 1 && Head(later, id) && later[id - 1].state.Reserved?
    ensures Do(w, Admit(e.request, e.now)).hist.begun == w.hist.begun
    ensures Transactions.Reserve(w.db, e.request, e.now).value.1.id !in w.hist.begun
  {
    AdmissionRule.ReserveSound(w.db, e.request, e.now);
    forall root | root in w.hist.begun ensures root <= |w.db.rows| {
      assert Begun(w.db.rows, root);
    }
  }

  lemma GrantStep(s: System, e: Event)
    requires Protocol(s.world) && ActorsOk(s) && e.Grants?
    ensures ActorsOk(Step(s, e))
  {
    var c := Admit(e.request, e.now);
    var later := Do(s.world, c);
    ElsewhereGrows(s.world, c);
    BegunGrows(s.world, c);
    ElsewhereOk(s, later);
    if Admitted(s, e) {
      GrantLands(s.world, e);
      var id := Transactions.Reserve(s.world.db, e.request, e.now).value.1.id;
      assert Step(s, e) == s.(world := later, supervisors := s.supervisors[id := Supervisor(Permitted,
          e.background, e.rev)]);
    } else {
      assert Step(s, e) == s.(world := later);
    }
  }

  /** A restart resolves nothing that was sent, and forgets every actor. */
  lemma RestartResolvesNothing(rows: seq<Row>, later: seq<Row>, a: Assessment, evidence: seq<(int, Evidence)>)
    requires |later| == |rows| && forall i | 0 <= i < |rows| :: later[i] == rows[i].(state := Restarted(rows[i], a))
    requires EvidenceOk(rows, evidence)
    ensures EvidenceOk(later, evidence)
  {
  }

  lemma CrashStep(s: System)
    requires Protocol(s.world) && ActorsOk(s)
    ensures ActorsOk(Step(s, Crashes))
  {
    var later := Do(s.world, Command.Open);
    RestartKept(s.world);
    BegunGrows(s.world, Command.Open);
    RestartResolvesNothing(s.world.db.rows, later.db.rows, Assess(s.world.db.meta, s.world.ext,
        s.world.db.rows), s.evidence);
    assert Step(s, Crashes) == System(later, map[], [], s.sent, s.evidence);
  }

  lemma CallingStep(s: System, e: Event)
    requires Protocol(s.world) && ActorsOk(s) && Enabled(s, e)
    requires !e.Environment? && !e.Grants? && !e.Crashes?
    ensures ActorsOk(Step(s, e))
  {
    if CallOf(s, e).None? {
      QuietStep(s, e);
    } else {
      CallIsOnGroup(s, e);
      if CallSucceeds(s, e) {
        ActorStep(s, e);
      } else {
        FailedStep(s, e);
      }
    }
  }

  lemma CallIsOnGroup(s: System, e: Event)
    requires Enabled(s, e) && !e.Environment? && !e.Grants? && !e.Crashes? && CallOf(s, e).Some?
    ensures ByActor(s, e)
  {
  }

  lemma ActorsStep(s: System, e: Event)
    requires Protocol(s.world) && ActorsOk(s)
    ensures ActorsOk(Step(s, e))
  {
    if Enabled(s, e) {
      if e.Environment? {
        ElsewhereStep(s, e);
      } else if e.Grants? {
        GrantStep(s, e);
      } else if e.Crashes? {
        CrashStep(s);
      } else {
        CallingStep(s, e);
      }
    }
  }

  lemma WorldStep(s: System, e: Event)
    ensures Step(s, e).world == s.world || exists c :: Step(s, e).world == Do(s.world, c)
  {
  }

  lemma SystemStep(s: System, e: Event)
    requires SystemOk(s)
    ensures SystemOk(Step(s, e))
  {
    ActorsStep(s, e);
    WorldStep(s, e);
    if Step(s, e).world != s.world {
      var c :| Step(s, e).world == Do(s.world, c);
      WorldKept(s.world, c);
    }
  }

  lemma WorldKept(w: World, c: Command)
    requires Protocol(w) && Recorded(w)
    ensures Protocol(Do(w, c)) && Recorded(Do(w, c))
  {
    assert Protocol(Do(w, c)) by {
      StepProtocol(w, c);
    }
    StepRecorded(w, c);
  }

  lemma {:induction false} PlayOk(s: System, es: seq<Event>)
    requires SystemOk(s)
    ensures SystemOk(Play(s, es))
    decreases |es|
  {
    if |es| != 0 {
      SystemStep(s, es[0]);
      PlayOk(Step(s, es[0]), es[1..]);
    }
  }

  lemma StartOk()
    ensures SystemOk(START)
  {
  }
}
