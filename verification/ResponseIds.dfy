/** The response id of a group: the one that was attached, from then on, in every row. */
module ResponseIds {
  import opened Results
  import opened ReservationState
  import opened Tables
  import opened Trust
  import opened Transactions
  import opened LedgerInvariant
  import opened GroupTransitions
  import opened Runs
  import opened RowEffects
  import opened GroupCalls

  /** The ids given so far, by group. */
  function Naming(w: World, names: map<int, string>, c: Command): map<int, string> {
    if c.Attach? && Succeeds(w, c) && 1 <= c.id <= |w.db.rows| then names[w.db.rows[c.id - 1].root := c.name] else names
  }

  function NamesGiven(w: World, names: map<int, string>, cs: seq<Command>): map<int, string>
    decreases |cs|
  {
    if |cs| == 0 then names else NamesGiven(Do(w, cs[0]), Naming(w, names, cs[0]), cs[1..])
  }

  /** Every row of a group that was given an id holds it, and no other row holds any. */
  predicate Named(rows: seq<Row>, names: map<int, string>) {
    forall i | 0 <= i < |rows| ::
      rows[i].responseId == if rows[i].root in names then Some(names[rows[i].root]) else None
  }

  /** No group is given a second id. */
  predicate OnceOnly(names: map<int, string>, later: map<int, string>) {
    forall root | root in names :: root in later && later[root] == names[root]
  }

  lemma AttachNames(w: World, names: map<int, string>, c: Command)
    requires Sane(w) && Named(w.db.rows, names) && c.Attach?
    ensures Named(Do(w, c).db.rows, Naming(w, names, c)) && OnceOnly(names, Naming(w, names, c))
  {
    AttachExactly(w, c.id, c.name);
    if InState(w.db.rows, c.id, {Dispatching}) {
      assert Placed(w.db.rows, c.id - 1, w.db.meta.currentEpoch);
    }
  }

  lemma RowKeepsId(w: World, c: Command, r: Row)
    requires !c.Attach?
    ensures RowAfter(w, c, r).responseId == r.responseId && RowAfter(w, c, r).root == r.root
  {
  }


  /** Every id was given to a group that is there. */
  predicate OfGroups(names: map<int, string>, rows: seq<Row>) {
    forall root | root in names :: 1 <= root <= |rows| && rows[root - 1].root == root
  }

  lemma NewRowNamed(w: World, names: map<int, string>, c: Command, i: nat)
    requires Sane(w) && Sane(Do(w, c)) && Named(w.db.rows, names) && OfGroups(names, w.db.rows) && Effect(w, c)
    requires |w.db.rows| <= i < |Do(w, c).db.rows|
    ensures var r := Do(w, c).db.rows[i]; r.responseId == if r.root in names then Some(names[r.root]) else None
  {
    var r := Do(w, c).db.rows[i];
    assert Appended(w.db.rows, c, i, r);
    assert Placed(Do(w, c).db.rows, i, Do(w, c).db.meta.currentEpoch);
  }

  lemma OtherNames(w: World, names: map<int, string>, c: Command)
    requires Sane(w) && Sane(Do(w, c)) && Named(w.db.rows, names) && OfGroups(names, w.db.rows) && !c.Attach?
    ensures Named(Do(w, c).db.rows, names)
  {
    EveryEffect(w, c);
    var rows, after := w.db.rows, Do(w, c).db.rows;
    forall i: nat | i < |after|
      ensures after[i].responseId == if after[i].root in names then Some(names[after[i].root]) else None
    {
      if i < |rows| {
        RowKeepsId(w, c, rows[i]);
      } else {
        NewRowNamed(w, names, c, i);
      }
    }
  }

  lemma RootsStay(w: World, c: Command)
    requires Effect(w, c)
    ensures |w.db.rows| <= |Do(w, c).db.rows|
    ensures forall i | 0 <= i < |w.db.rows| :: Do(w, c).db.rows[i].root == w.db.rows[i].root
  {
    forall i | 0 <= i < |w.db.rows| ensures Do(w, c).db.rows[i].root == w.db.rows[i].root {
      assert Do(w, c).db.rows[i] == RowAfter(w, c, w.db.rows[i]);
    }
  }

  lemma HeadsStay(rows: seq<Row>, current: int, later: seq<Row>, names: map<int, string>, id: int, name: string)
    requires RowsOk(rows, current) && OfGroups(names, rows) && |rows| <= |later|
    requires forall i | 0 <= i < |rows| :: later[i].root == rows[i].root
    ensures OfGroups(names, later)
    ensures 1 <= id <= |rows| ==> OfGroups(names[rows[id - 1].root := name], later)
  {
    if 1 <= id <= |rows| {
      assert Placed(rows, id - 1, current);
    }
  }

  lemma GroupsStay(w: World, names: map<int, string>, c: Command)
    requires Sane(w) && OfGroups(names, w.db.rows)
    ensures OfGroups(Naming(w, names, c), Do(w, c).db.rows)
  {
    assert Effect(w, c) by {
      EveryEffect(w, c);
    }
    RootsStay(w, c);
    HeadsStay(w.db.rows, w.db.meta.currentEpoch, Do(w, c).db.rows, names, if c.Attach? then c.id else 0,
              if c.Attach? then c.name else "");
  }

  lemma StepNames(w: World, names: map<int, string>, c: Command)
    requires Sane(w) && Named(w.db.rows, names) && OfGroups(names, w.db.rows)
    ensures Named(Do(w, c).db.rows, Naming(w, names, c)) == true
    ensures OfGroups(Naming(w, names, c), Do(w, c).db.rows) == true
    ensures OnceOnly(names, Naming(w, names, c)) == true
  {
    assert Sane(Do(w, c)) by {
      StepKeeps(w, c);
    }
    GroupsStay(w, names, c);
    if c.Attach? {
      AttachNames(w, names, c);
    } else {
      OtherNames(w, names, c);
    }
  }

  lemma {:induction false} RunNames(w: World, names: map<int, string>, cs: seq<Command>)
    requires Sane(w) && Named(w.db.rows, names) && OfGroups(names, w.db.rows)
    ensures Named(Run(w, cs).db.rows, NamesGiven(w, names, cs)) == true
    ensures OfGroups(NamesGiven(w, names, cs), Run(w, cs).db.rows) == true
    ensures OnceOnly(names, NamesGiven(w, names, cs)) == true
    decreases |cs|
  {
    if |cs| != 0 {
      StepNames(w, names, cs[0]);
      assert Sane(Do(w, cs[0])) by {
        StepKeeps(w, cs[0]);
      }
      RunNames(Do(w, cs[0]), Naming(w, names, cs[0]), cs[1..]);
    }
  }

  /** The response id is the one given. From a new ledger, through any calls, crashes
      and rollovers: a row of a group to which an id was attached holds that id, copies
      made by rollover and closed groups included, and every other row holds none; and
      whatever is called afterwards, the id given stays the one given. */
  lemma ResponseIdIsTheOneGiven(cs: seq<Command>, more: seq<Command>)
    ensures var w := Run(INITIAL, cs);
            var names := NamesGiven(INITIAL, map[], cs);
            && Named(w.db.rows, names)
            && Named(Run(w, more).db.rows, NamesGiven(w, names, more))
            && OnceOnly(names, NamesGiven(w, names, more))
            && forall i | 0 <= i < |w.db.rows| && w.db.rows[i].state.DispatchedWithId? :: w.db.rows[i].root in names
  {
    InitialSane();
    RunKeeps(INITIAL, cs);
    RunNames(INITIAL, map[], cs);
    var w := Run(INITIAL, cs);
    RunNames(w, NamesGiven(INITIAL, map[], cs), more);
    forall i: nat | i < |w.db.rows| && w.db.rows[i].state.DispatchedWithId?
      ensures w.db.rows[i].root in NamesGiven(INITIAL, map[], cs)
    {
      assert Placed(w.db.rows, i, w.db.meta.currentEpoch);
    }
  }
}
