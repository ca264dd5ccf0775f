/**
One request's life, step by step, and a restore in the middle of it: the states
the run theorems speak of are reached.
*/
module Walkthrough {
  import opened Results
  import opened ReservationState
  import opened Tables
  import opened Trust
  import opened Transactions
  import opened LedgerInvariant
  import opened GroupTransitions
  import opened DailyRollover
  import opened Runs
  import opened Supervision
  import Rollback

  const REQUEST := Request("p", 5, "d", "m", "t", 1, [])
  const RESPONSE := Completed(Some(Usage(3, 1)), "m", "t")

  function RowIn(state: State, settled: Option<int>): Row {
    Row(1, 1, "p", 1, state, 5, settled, None, "d", "m", "t", 1, 0)
  }

  /** The system with one group, in this state. */
  function SystemAt(row: Row, counters: Counters, mark: HighWaterMark, begun: set<int>, phase: Phase, sent: set<int>,
                    evidence: seq<(int, Evidence)>): System
  {
    System(World(Tables([row], map[("p", 1) := counters], Meta(mark.generation, mark.cumulative, 1, false), map[], []),
                 Present(mark), Trusted, History(begun, [1], map[], map[])),
           map[1 := Supervisor(phase, false, 1)], [], sent, evidence)
  }

  const ANCHOR := HighWaterMark(1, 0, 0)
  const MARK := HighWaterMark(2, 5, 1)

  const ADOPTED := START.(world := World(FRESH.(meta := Meta(1, 0, 0, false)), Present(ANCHOR), Trusted, INITIAL.hist))

  const ROLLED := START.(world := World(Tables([], map[("p", 1) := Counters(10, 0, 0)], Meta(1, 0, 1, false),
      map[], []),
                                        Present(ANCHOR), Trusted, History({}, [1], map[], map[])))

  const GRANTED := SystemAt(RowIn(Reserved, None), Counters(10, 0, 5), ANCHOR, {}, Permitted, {}, [])
  const BEGUN := SystemAt(RowIn(Dispatching, None), Counters(10, 0, 5), MARK, {1}, Sending, {}, [])
  const SETTLED := SystemAt(RowIn(Settled, Some(4)), Counters(10, 4, 0), MARK, {1}, Relaying(None, true, true), {1},
                            [(1, Reported(RESPONSE, 1))])

  lemma Adopts()
    ensures Step(START, Environment(Adopt([], Durable))) == ADOPTED
  {
    assert RaiseAll(map[], []) == Success(map[]);
  }

  lemma Rolls()
    ensures Step(ADOPTED, Environment(RollTo(1, [("p", 10)]))) == ROLLED
  {
    var grants: seq<(string, nat)> := [("p", 10)];
    assert grants[1..] == [];
    assert OpenPools(map[], 1, grants) == Success(map[("p", 1) := Counters(10, 0, 0)]);
    assert CarryList([], [], 1) == [];
  }

  lemma Grant()
    ensures Step(ROLLED, Grants(REQUEST, 0, false, 1)) == GRANTED
  {
    assert SortDedup([]) == [] && MaxId([]) == 0;
    assert [] + [RowIn(Reserved, None)] == [RowIn(Reserved, None)];
  }

  lemma OneRowGroup(state: State, settled: Option<int>)
    ensures var row := RowIn(state, settled);
            && LoadGroup([row], 1) == Success([row])
            && Selected([row], Selector(Some(1), state)) == [row]
            && forall p :: Update([row], Selector(Some(1), state), p) == [Patched(row, p)]
  {
    var row := RowIn(state, settled);
    assert [row][1..] == [] && [row] + [] == [row];
    assert Lookup([row], 1) == Some(row);
    assert GroupOf([row], 1) == [row];
    forall r | r in [row] ensures r == row {}
    forall p ensures Update([row], Selector(Some(1), state), p) == [Patched(row, p)] {}
  }

  lemma Begin()
    ensures Step(GRANTED, Begins(1, Durable)) == BEGUN
  {
    OneRowGroup(Reserved, None);
    assert DispatchMark(GRANTED.world.db, 1) == Success(MARK);
    assert {} + {1} == {1};
  }

  const SENT := SystemAt(RowIn(Dispatching, None), Counters(10, 0, 5), MARK, {1}, Awaiting, {1}, [])
  const RELAYING := SystemAt(RowIn(Dispatching, None), Counters(10, 0, 5), MARK, {1}, Relaying(None, false,
      true), {1}, [])

  lemma SendsAndAnswers()
    ensures Step(BEGUN, Sends(1)) == SENT && Step(SENT, Answers(1, 200, true)) == RELAYING
  {
    assert {} + {1} == {1};
  }

  lemma Settles()
    ensures Step(RELAYING, Completes(1, RESPONSE)) == SETTLED
  {
    var row := RowIn(Dispatching, None);
    OneRowGroup(Dispatching, None);
    assert [row][1..] == [];
    assert RELAYING.world.db.pools[("p", 1) := Counters(10, 4, 0)] == map[("p", 1) := Counters(10, 4, 0)];
    assert AdjustPool(RELAYING.world.db.pools, ("p", 1), -5, 4) == Success(map[("p", 1) := Counters(10, 4, 0)]);
    assert ReleaseRows(RELAYING.world.db.pools, [row], 4) == Success(map[("p", 1) := Counters(10, 4, 0)]);
    assert RELAYING.evidence + [(1, Reported(RESPONSE, 1))] == [(1, Reported(RESPONSE, 1))];
  }

  const OPENING: seq<Event> := [Environment(Adopt([], Durable)), Environment(RollTo(1, [("p", 10)]))]
  const SENDING: seq<Event> := [Grants(REQUEST, 0, false, 1), Begins(1, Durable), Sends(1)]
  const SETTLING: seq<Event> := [Answers(1, 200, true), Completes(1, RESPONSE)]

  lemma {:induction false} PlayJoins(s: System, first: seq<Event>, rest: seq<Event>)
    ensures Play(s, first + rest) == Play(Play(s, first), rest)
    decreases |first|
  {
    if |first| == 0 {
      assert first + rest == rest;
    } else {
      assert (first + rest)[0] == first[0] && (first + rest)[1..] == first[1..] + rest;
      PlayJoins(Step(s, first[0]), first[1..], rest);
    }
  }

  lemma PlayOne(s: System, e: Event)
    ensures Play(s, [e]) == Step(s, e)
  {
    assert [e][1..] == [];
  }

  lemma PlayTwo(s: System, d: Event, e: Event)
    ensures Play(s, [d, e]) == Step(Step(s, d), e)
  {
    PlayOne(s, d);
    PlayOne(Step(s, d), e);
    PlayJoins(s, [d], [e]);
    assert [d] + [e] == [d, e];
  }

  lemma ToOpen()
    ensures Play(START, OPENING) == ROLLED
  {
    Adopts();
    Rolls();
    PlayTwo(START, OPENING[0], OPENING[1]);
    assert OPENING == [OPENING[0], OPENING[1]];
  }

  lemma ToSent()
    ensures Play(ROLLED, SENDING) == SENT
  {
    Grant();
    Begin();
    SendsAndAnswers();
    PlayTwo(ROLLED, SENDING[0], SENDING[1]);
    PlayOne(BEGUN, SENDING[2]);
    PlayJoins(ROLLED, [SENDING[0], SENDING[1]], [SENDING[2]]);
    assert SENDING == [SENDING[0], SENDING[1]] + [SENDING[2]];
  }

  lemma ToSettled()
    ensures Play(SENT, SETTLING) == SETTLED
  {
    SendsAndAnswers();
    Settles();
    PlayTwo(SENT, SETTLING[0], SETTLING[1]);
    assert SETTLING == [SETTLING[0], SETTLING[1]];
  }

  /** A request of liability 5 is granted, begun and sent, and its 5 are held; it
      is then answered, settled for 4 tokens, and charged them. */
  lemma ALife()
    ensures Play(START, OPENING + SENDING) == SENT && Play(START, OPENING + SENDING + SETTLING) == SETTLED
    ensures 1 in SENT.sent && SENT.world.db.pools[("p", 1)] == Counters(10, 0, 5)
    ensures 1 in SETTLED.sent && SETTLED.world.db.pools[("p", 1)] == Counters(10, 4, 0)
  {
    ToOpen();
    ToSent();
    ToSettled();
    PlayJoins(START, OPENING, SENDING);
    PlayJoins(START, OPENING + SENDING, SETTLING);
  }

  /** The ledger as granted, put back under the record of the dispatch: opening it
      promotes the request, which is then held as sent with an unknown id. */
  lemma ARestore()
    ensures var reopened := Rollback.Restored(GRANTED.world, SENT.world);
            && reopened.trust == Unknown(UncleanShutdown)
            && reopened.db.rows == [RowIn(DispatchedIdUnknown, None)]
            && reopened.db.pools[("p", 1)] == Counters(10, 0, 5)
  {
    var row := RowIn(Reserved, None);
    var a := Assessment(Unknown(UncleanShutdown), Some(1));
    assert [row][1..] == [] && Lookup([row], 1) == Some(row);
    assert Assess(GRANTED.world.db.meta, SENT.world.ext, [row]) == a;
    OneRowGroup(Reserved, None);
    OneRowGroup(DispatchedIdUnknown, None);
    var sent := [RowIn(DispatchedIdUnknown, None)];
    assert Resolved(GRANTED.world.db, a, SENT.world.ext).rows == sent;
    assert sent[1..] == [] && Selected(sent, Selector(None, Reserved)) == [];
    assert Update(sent, Selector(None, Reserved), Finish(ReleasedUnsent, None)) == sent;
  }

  const GRANTING: seq<Command> := [Adopt([], Durable), RollTo(1, [("p", 10)]), Admit(REQUEST, 0)]

  lemma RunThree(w: World, a: Command, b: Command, c: Command)
    ensures Run(w, [a, b, c]) == Do(Do(Do(w, a), b), c)
  {
    assert [a, b, c][1..] == [b, c] && [b, c][1..] == [c] && [c][1..] == [];
    assert Run(Do(w, a), [b, c]) == Run(Do(Do(w, a), b), [c]);
  }

  lemma Granted()
    ensures Run(INITIAL, GRANTING) == GRANTED.world
  {
    Adopts();
    Rolls();
    Grant();
    RunThree(INITIAL, GRANTING[0], GRANTING[1], GRANTING[2]);
    assert GRANTING == [GRANTING[0], GRANTING[1], GRANTING[2]];
  }

  /** The bound is lost on a run: a request of liability 5 is live in a day granted
      10, and the next day is granted 3. */
  lemma ShrunkenGrantOnARun()
    ensures var w := Run(INITIAL, GRANTING);
            && Bounded(w.db) && w.db.meta.currentEpoch == 1
            && Outcome(w, RollTo(2, [("p", 3)])).None?
            && !Bounded(Do(w, RollTo(2, [("p", 3)])).db)
  {
    Granted();
    assert Valid(GRANTED.world.db) by {
      InitialSane();
      RunKeeps(INITIAL, GRANTING);
    }
    CarryLosesBound(GRANTED.world.db, [("p", 3)]);
    RollingOn(GRANTED.world, 2, [("p", 3)]);
  }

  lemma RollingOn(w: World, epoch: int, grants: seq<(string, nat)>)
    requires var r := Transactions.Rollover(w.db, epoch, grants); r.Success? && !r.value.1.AlreadyCurrent?
    ensures Outcome(w, RollTo(epoch, grants)).None?
    ensures Do(w, RollTo(epoch, grants)).db == Transactions.Rollover(w.db, epoch, grants).value.0
  {
  }

  lemma CarryLosesBound(db: Tables, grants: seq<(string, nat)>)
    requires db == GRANTED.world.db && Valid(db) && grants == [("p", 3)]
    ensures Bounded(db) && Transactions.Rollover(db, 2, grants).Success?
    ensures !Bounded(Transactions.Rollover(db, 2, grants).value.0)
    ensures !Transactions.Rollover(db, 2, grants).value.1.AlreadyCurrent?
  {
    var row := RowIn(Reserved, None);
    OneRow(row);
    assert Bounded(db);
    Carries(db, row, grants);
    RolloverBound(db, 2, grants);
    RolloverSound(db, 2, grants);
    assert GrantFor(grants, "p") == Some(3) && CarriedLiability(db, "p") == 5;
  }

  lemma Carries(db: Tables, row: Row, grants: seq<(string, nat)>)
    requires db == GRANTED.world.db && row == RowIn(Reserved, None) && grants == [("p", 3)]
    ensures Transactions.Rollover(db, 2, grants).Success?
  {
    var started := db.pools[("p", 2) := Counters(3, 0, 0)];
    assert grants[1..] == [] && OpenPools(db.pools, 2, grants) == Success(started);
    assert db.rows[1..] == [] && MustCarry(db.rows, row, 2) && CarryList(db.rows, db.rows, 2) == [row];
    assert CarryOne(Carried(db.rows, started, 0), row, 2).Success?;
    assert [row][1..] == [] && CarryAll(Carried(db.rows, started, 0), [row], 2).Success?;
  }
}
