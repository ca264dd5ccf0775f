/**
The ledger refines the request-list model: command by command it goes where the
model goes and answers what the model expects, so over every run the model predicts
every figure, every admission and every refusal.
*/
module ModelRefines {
  import opened Results
  import opened ReservationState
  import opened Tables
  import opened Trust
  import opened Transactions
  import opened LedgerInvariant
  import opened GroupTransitions
  import opened AdmissionRule
  import opened DailyRollover
  import opened Recovery
  import opened Runs
  import opened RowEffects
  import opened Accounts
  import opened GhostModel
  import opened Capacity
  import opened RequestModel

  function Roots(rows: seq<Row>): (roots: seq<int>)
    ensures |roots| == |rows| && forall i | 0 <= i < |rows| :: roots[i] == rows[i].root
  {
    seq(|rows|, i requires 0 <= i < |rows| => rows[i].root)
  }

  /** The model state a ledger stands for. */
  function View(w: World): Model {
    Model(Abs(w.db.rows), Roots(w.db.rows), w.db.meta.currentEpoch,
          map key | key in w.db.pools :: w.db.pools[key].granted,
          map key | key in w.db.pools :: LedgerInvariant.Adopted(w.db.rows, w.db.pools, key),
          w.db.safety, Scopes(w.db.latches),
          w.db.meta.generation, w.db.meta.cumulative, w.db.meta.clean, w.ext, w.trust)
  }

  /** In each epoch groups stand in the order of their admission. */
  predicate Ordered(rows: seq<Row>) {
    forall i, j | 0 <= i < j < |rows| && rows[i].epoch == rows[j].epoch :: rows[i].root < rows[j].root
  }

  predicate Tracked(w: World) {
    Sane(w) && Ordered(w.db.rows)
  }

  /** The ledger makes the step the model makes, and answers as it expects. */
  ghost predicate Refines(w: World, c: Command) {
    && View(Do(w, c)) == ModelDo(View(w), c)
    && (Succeeds(w, c) <==> Accepts(View(w), c))
    && Ordered(Do(w, c).db.rows)
  }

  // ---------------------------------------------------------------------
  // Reading the model state.

  lemma ViewCounts(w: World, key: Key)
    requires Sane(w) && key in w.db.pools
    ensures w.db.pools[key].reserved == GhostTotal(View(w).requests, key, Held)
    ensures w.db.pools[key].consumed == Consumed(View(w), key)
  {
    assert PoolOk(w.db.rows, w.db.pools, key);
    TotalsAgree(w.db.rows, w.db.meta.currentEpoch, key, Held);
    TotalsAgree(w.db.rows, w.db.meta.currentEpoch, key, Charged);
  }

  /** The request and the row agree on all that a command looks at. */
  predicate Alike(g: Ghost, r: Row) {
    && g.id == r.root
    && (g.pool, g.state, g.liability) == (r.pool, r.state, r.liability)
    && (g.settled, g.model, g.tier, g.rev) == (r.settled, r.model, r.tier, r.rev)
  }

  lemma {:induction false} FindsListed(requests: seq<Ghost>, id: int)
    ensures Find(requests, id).Some? <==> Listed(requests, id)
    ensures Find(requests, id).Some? ==> Find(requests, id).value in requests && Find(requests, id).value.id == id
  {
    if |requests| != 0 {
      FindsListed(requests[1..], id);
      if requests[0].id != id && Listed(requests, id) {
        var k :| 0 <= k < |requests| && requests[k].id == id;
        assert requests[1..][k - 1].id == id;
      }
    }
  }

  lemma OwnerFound(rows: seq<Row>, requests: seq<Ghost>, root: int)
    requires ReadsAll(rows, requests) && 1 <= root <= |rows| && rows[root - 1].root == root
    ensures Find(requests, root).Some? && Find(requests, root).value.id == root
    ensures Reads(rows, Find(requests, root).value) == true
  {
    FindsListed(requests, root);
    assert rows[root - 1].root == (root - 1) + 1 && Listed(requests, root);
    var g := Find(requests, root).value;
    var k :| 0 <= k < |requests| && requests[k] == g;
    assert Reads(rows, requests[k]);
  }

  lemma OwnerReads(w: World, id: int)
    requires Sane(w)
    ensures var g := Owner(View(w), id);
            && (g.Some? <==> 1 <= id <= |w.db.rows|)
            && (g.Some? ==> Alike(g.value, w.db.rows[id - 1]) && Reads(w.db.rows, g.value) == true)
  {
    if 1 <= id <= |w.db.rows| {
      assert ReadsAll(w.db.rows, Abs(w.db.rows)) by {
        AbsReads(w.db.rows, w.db.meta.currentEpoch);
      }
      HeadAlike(w.db.rows, id, w.db.meta.currentEpoch);
      OwnerFound(w.db.rows, Abs(w.db.rows), w.db.rows[id - 1].root);
    }
  }

  lemma HeadAlike(rows: seq<Row>, id: int, current: int)
    requires RowsOk(rows, current) && 1 <= id <= |rows|
    ensures var root := rows[id - 1].root;
            && 1 <= root <= |rows| && rows[root - 1].root == root
            && forall g | Reads(rows, g) && g.id == root :: Alike(g, rows[id - 1])
  {
    assert Placed(rows, id - 1, current);
    SameGroup(rows, rows[id - 1].root - 1, id - 1, current);
  }

  lemma AlikeAnswers(g: Ghost, r: Row, c: Command)
    requires Alike(g, r) && IsGroupCommand(c)
    ensures PatchFor(RowOf(g), c) == PatchFor(r, c)
    ensures ChargeOf(RowOf(g), c) == ChargeOf(r, c)
    ensures NewLatches(RowOf(g), c) == NewLatches(r, c)
  {
  }

  lemma RowRoom(w: World, g: Ghost, i: nat, charge: int)
    requires Sane(w) && i < |w.db.rows| && g.pool == w.db.rows[i].pool
    ensures HasRoom(w.db.pools, w.db.rows[i], charge) <==>
            Consumed(View(w), (g.pool, w.db.rows[i].epoch)) + charge <= I64_MAX
  {
    ViewCounts(w, (w.db.rows[i].pool, w.db.rows[i].epoch));
  }

  lemma RoomAgrees(w: World, id: int, g: Ghost, charge: int)
    requires Sane(w) && 1 <= id <= |w.db.rows| && Alike(g, w.db.rows[id - 1]) && Reads(w.db.rows, g)
    ensures RoomFor(View(w), g, charge) <==> GroupHasRoom(w.db.rows, w.db.pools, id, charge)
  {
    var rows := w.db.rows;
    forall i: nat | i < |rows| && rows[i].root == g.id
      ensures rows[i].epoch in g.epochs
      ensures HasRoom(w.db.pools, rows[i], charge) <==> Consumed(View(w), (g.pool, rows[i].epoch)) + charge <= I64_MAX
    {
      assert InEpoch(rows, g.id, rows[i].epoch);
      SameGroup(rows, i, id - 1, w.db.meta.currentEpoch);
      RowRoom(w, g, i, charge);
    }
    RoomsPair(View(w), g, rows, w.db.pools, id, charge);
  }

  lemma RoomsPair(m: Model, g: Ghost, rows: seq<Row>, pools: map<Key, Counters>, id: int, charge: int)
    requires 1 <= id <= |rows| && g.id == rows[id - 1].root
    requires forall e :: e in g.epochs <==> InEpoch(rows, g.id, e)
    requires forall i: nat | i < |rows| && rows[i].root == g.id ::
               && rows[i].epoch in g.epochs
               && (HasRoom(pools, rows[i], charge) <==> Consumed(m, (g.pool, rows[i].epoch)) + charge <= I64_MAX)
    ensures RoomFor(m, g, charge) <==> GroupHasRoom(rows, pools, id, charge)
  {
    if GroupHasRoom(rows, pools, id, charge) {
      forall e | e in g.epochs ensures Consumed(m, (g.pool, e)) + charge <= I64_MAX {
        var i :| 0 <= i < |rows| && rows[i].root == g.id && rows[i].epoch == e;
        assert HasRoom(pools, rows[i], charge);
      }
    }
  }

  // ---------------------------------------------------------------------
  // Commands on one request.

  lemma LegalAgrees(w: World, c: Command)
    requires Sane(w) && IsGroupCommand(c) && Proper(c)
    ensures GroupLegal(View(w), c) <==> Succeeds(w, c)
  {
    GroupSucceedsExactly(w, c);
    LegalIsRoom(w, c);
  }

  lemma LegalIsRoom(w: World, c: Command)
    requires Sane(w) && IsGroupCommand(c) && Proper(c)
    ensures GroupLegal(View(w), c) <==>
              && Admits(w.db.rows, c.id, Asked(c))
              && GroupHasRoom(w.db.rows, w.db.pools, c.id, ChargeOf(w.db.rows[c.id - 1], c))
  {
    OwnerReads(w, c.id);
    var g := Owner(View(w), c.id);
    if g.Some? {
      AlikeAnswers(g.value, w.db.rows[c.id - 1], c);
      RoomAgrees(w, c.id, g.value, ChargeOf(RowOf(g.value), c));
    }
  }

  lemma GroupCommandIs(w: World, c: Command)
    requires Sane(w) && IsGroupCommand(c)
    ensures GroupCommand(w, c).Some? ==>
              1 <= c.id <= |w.db.rows| && GroupCommand(w, c).value == (c.id, PatchFor(w.db.rows[c.id - 1], c))
    ensures GroupCommand(w, c).Some? <==> Proper(c) && Succeeds(w, c)
  {
    if Proper(c) {
      GroupSucceeds(w, c);
    }
  }

  lemma SettleLatches(w: World, c: Command)
    requires Sane(w) && c.SettleWith? && GroupCommand(w, c).Some?
    ensures Do(w, c).db.latches == w.db.latches + NewLatches(w.db.rows[c.id - 1], c)
  {
    SettleSound(w.db, c.id, c.response, c.rev);
  }

  lemma OtherLatches(w: World, c: Command)
    requires Sane(w) && IsGroupCommand(c) && !c.SettleWith?
    ensures Do(w, c).db.latches == w.db.latches
  {
    if c.Attach? {
      RelabelSound(w.db, c.id, AttachResponseId, Some(c.name));
    } else if c.LoseId? {
      RelabelSound(w.db, c.id, MarkIdUnknown, None);
    } else if c.GiveUp? {
      WriteOffSound(w.db, c.id);
    } else if Proper(c) {
      ReleaseSound(w.db, c.id, c.t);
    }
  }

  lemma ScopesJoin(latches: seq<Latch>, more: seq<Latch>)
    ensures Scopes(latches + more) == Scopes(latches) + Scopes(more)
  {
    forall scope ensures scope in Scopes(latches + more) <==> scope in Scopes(latches) || scope in Scopes(more) {
      if l :| l in latches + more && !l.cleared && l.scope == scope {
        assert l in latches || l in more;
      }
      if l :| l in latches && !l.cleared && l.scope == scope {
        assert l in latches + more;
      }
      if l :| l in more && !l.cleared && l.scope == scope {
        assert l in latches + more;
      }
    }
  }

  /** Rows moved in place, counters following. */
  lemma MovedView(w: World, after: World, c: Change)
    requires RowsChange(w.db.rows, after.db.rows, c)
    requires Follows(w.db.rows, w.db.pools, after.db.rows, after.db.pools)
    requires after.db.meta.currentEpoch == w.db.meta.currentEpoch && after.db.safety == w.db.safety
    ensures View(after) ==
            View(w).(requests := ChangedAll(Abs(w.db.rows), c), latched := Scopes(after.db.latches),
                     generation := after.db.meta.generation, cumulative := after.db.meta.cumulative,
                     clean := after.db.meta.clean, ext := after.ext, trust := after.trust)
  {
    AbsChanges(w.db.rows, after.db.rows, c);
    assert Roots(after.db.rows) == Roots(w.db.rows);
  }

  lemma OrderStays(rows: seq<Row>, later: seq<Row>)
    requires Ordered(rows) && SamePlaces(rows, later)
    ensures Ordered(later)
  {
  }

  lemma GroupLatched(w: World, c: Command)
    requires Sane(w) && IsGroupCommand(c) && GroupCommand(w, c).Some?
    ensures 1 <= c.id <= |w.db.rows|
    ensures Scopes(Do(w, c).db.latches) == Scopes(w.db.latches) + Scopes(NewLatches(w.db.rows[c.id - 1], c))
  {
    GroupCommandIs(w, c);
    if c.SettleWith? {
      SettleLatches(w, c);
    } else {
      OtherLatches(w, c);
      assert w.db.latches + [] == w.db.latches;
    }
    ScopesJoin(w.db.latches, NewLatches(w.db.rows[c.id - 1], c));
  }

  lemma GroupViewed(w: World, c: Command)
    requires Sane(w) && IsGroupCommand(c) && GroupCommand(w, c).Some?
    ensures 1 <= c.id <= |w.db.rows|
    ensures View(Do(w, c)) ==
            View(w).(requests := ChangedAll(Abs(w.db.rows),
                                            Move(w.db.rows[c.id - 1].root, PatchFor(w.db.rows[c.id - 1], c))),
                     latched := Scopes(Do(w, c).db.latches))
  {
    GroupCommandIs(w, c);
    GroupKeeps(w, c);
    var r := w.db.rows[c.id - 1];
    assert RowsChange(w.db.rows, Do(w, c).db.rows, Move(r.root, PatchFor(r, c))) by {
      MoveChanges(w.db.rows, Do(w, c).db.rows, c.id, PatchFor(r, c), w.db.meta.currentEpoch);
    }
    MovedView(w, Do(w, c), Move(r.root, PatchFor(r, c)));
  }

  lemma ModelGroupIs(m: Model, c: Command)
    requires IsGroupCommand(c)
    ensures !(Proper(c) && GroupLegal(m, c)) ==> ModelDo(m, c) == m
    ensures Proper(c) && GroupLegal(m, c) ==>
              var g := Owner(m, c.id).value;
              ModelDo(m, c) == m.(requests := ChangedAll(m.requests, Move(g.id, PatchFor(RowOf(g), c))),
                                  latched := m.latched + Scopes(NewLatches(RowOf(g), c)))
  {
  }

  lemma GroupModelled(w: World, c: Command)
    requires Sane(w) && IsGroupCommand(c)
    ensures View(Do(w, c)) == ModelDo(View(w), c)
  {
    GroupCommandIs(w, c);
    ModelGroupIs(View(w), c);
    if Proper(c) {
      LegalAgrees(w, c);
    }
    if GroupCommand(w, c).Some? {
      GroupViewed(w, c);
      GroupLatched(w, c);
      OwnerReads(w, c.id);
      AlikeAnswers(Owner(View(w), c.id).value, w.db.rows[c.id - 1], c);
    } else {
      GroupKeeps(w, c);
    }
  }

  lemma ImproperSucceeds(w: World, c: Command)
    requires IsGroupCommand(c) && !Proper(c)
    ensures Succeeds(w, c)
  {
  }

  lemma GroupRefines(w: World, c: Command)
    requires Tracked(w) && IsGroupCommand(c)
    ensures Refines(w, c)
  {
    GroupModelled(w, c);
    GroupInPlace(w, c);
    OrderStays(w.db.rows, Do(w, c).db.rows);
    if Proper(c) {
      LegalAgrees(w, c);
    } else {
      ImproperSucceeds(w, c);
    }
  }

  // ---------------------------------------------------------------------
  // The two calls that write the record.

  lemma MarkAgrees(w: World, id: int)
    requires Sane(w)
    ensures DispatchMark(w.db, id).Success? <==> CanMark(View(w), id)
    ensures CanMark(View(w), id) ==>
              var g := Owner(View(w), id).value;
              DispatchMark(w.db, id).value ==
              HighWaterMark(w.db.meta.generation + 1, w.db.meta.cumulative + g.liability, g.id)
  {
    MarkSucceedsExactly(w.db, id);
    MarkExactly(w.db, id);
    OwnerReads(w, id);
  }

  lemma BeginCommits(w: World, id: int, mark: HighWaterMark, after: World)
    requires Sane(w) && DispatchMark(w.db, id) == Success(mark)
    requires CommitDispatch(w.db, id, mark).Success? && after.db == CommitDispatch(w.db, id, mark).value
    requires after.trust == w.trust
    ensures 1 <= id <= |w.db.rows|
    ensures View(after) ==
            View(w).(requests := ChangedAll(Abs(w.db.rows), Move(w.db.rows[id - 1].root, Relabel(Dispatching, None))),
                     generation := mark.generation, cumulative := mark.cumulative, ext := after.ext)
  {
    DispatchParts(w.db, id, mark);
    var p := Relabel(Dispatching, None);
    MoveChanges(w.db.rows, after.db.rows, id, p, w.db.meta.currentEpoch);
    MovedView(w, after, Move(w.db.rows[id - 1].root, p));
  }

  /** What the model's dispatch amounts to when it does not commit. */
  lemma ModelBeginIs(m: Model, id: int, io: Durability)
    ensures !CanMark(m, id) || io.NotWritten? ==> ModelBegin(m, id, io) == m
    ensures CanMark(m, id) && io.WrittenNotCommitted? ==>
              var g := Owner(m, id).value;
              ModelBegin(m, id, io) ==
              m.(ext := Present(HighWaterMark(m.generation + 1, m.cumulative + g.liability, g.id)))
  {
  }

  /** And the ledger's. */
  lemma BeginningIs(w: World, id: int, io: Durability)
    requires Sane(w)
    ensures DispatchMark(w.db, id).Failure? || io.NotWritten? ==> Beginning(w, id, io) == w
    ensures DispatchMark(w.db, id).Success? && !io.NotWritten? ==>
              var mark := DispatchMark(w.db, id).value;
              && Beginning(w, id, io).ext == Present(mark) && Beginning(w, id, io).trust == w.trust
              && CommitDispatch(w.db, id, mark).Success?
              && Beginning(w, id, io).db == if io.Durable? then CommitDispatch(w.db, id, mark).value else w.db
  {
    var mark := DispatchMark(w.db, id);
    if mark.Success? {
      DispatchParts(w.db, id, mark.value);
    }
  }

  lemma SameTables(w: World, after: World)
    requires after.db == w.db
    ensures View(after) == View(w).(ext := after.ext, trust := after.trust)
  {
  }

  lemma LostModelled(w: World, id: int)
    requires Sane(w) && CanMark(View(w), id)
    ensures View(Beginning(w, id, WrittenNotCommitted)) == ModelBegin(View(w), id, WrittenNotCommitted)
  {
    MarkAgrees(w, id);
    BeginningIs(w, id, WrittenNotCommitted);
    ModelBeginIs(View(w), id, WrittenNotCommitted);
    SameTables(w, Beginning(w, id, WrittenNotCommitted));
  }

  lemma ModelBegins(m: Model, id: int)
    requires CanMark(m, id)
    ensures var g := Owner(m, id).value;
            ModelBegin(m, id, Durable) ==
            m.(requests := ChangedAll(m.requests, Move(g.id, Relabel(Dispatching, None))),
               generation := m.generation + 1, cumulative := m.cumulative + g.liability,
               ext := Present(HighWaterMark(m.generation + 1, m.cumulative + g.liability, g.id)))
  {
  }

  lemma MarkedModelled(w: World, id: int)
    requires Sane(w) && CanMark(View(w), id)
    ensures View(Beginning(w, id, Durable)) == ModelBegin(View(w), id, Durable)
  {
    MarkAgrees(w, id);
    BeginningIs(w, id, Durable);
    ModelBegins(View(w), id);
    OwnerReads(w, id);
    BeginCommits(w, id, DispatchMark(w.db, id).value, Beginning(w, id, Durable));
  }

  lemma BeginModelled(w: World, c: Command)
    requires Sane(w) && c.Begin?
    ensures View(Do(w, c)) == ModelDo(View(w), c)
  {
    if CanMark(View(w), c.id) && c.io.Durable? {
      MarkedModelled(w, c.id);
    } else if CanMark(View(w), c.id) && c.io.WrittenNotCommitted? {
      LostModelled(w, c.id);
    } else {
      MarkAgrees(w, c.id);
      BeginningIs(w, c.id, c.io);
      ModelBeginIs(View(w), c.id, c.io);
    }
  }

  lemma BeginAnswers(w: World, c: Command)
    requires Sane(w) && c.Begin?
    ensures Succeeds(w, c) <==> Accepts(View(w), c)
  {
    MarkAgrees(w, c.id);
    var mark := DispatchMark(w.db, c.id);
    if mark.Success? {
      DispatchParts(w.db, c.id, mark.value);
    }
  }

  lemma BeginRefines(w: World, c: Command)
    requires Tracked(w) && c.Begin?
    ensures Refines(w, c)
  {
    BeginModelled(w, c);
    BeginAnswers(w, c);
    BeginInPlace(w, c);
    OrderStays(w.db.rows, Do(w, c).db.rows);
  }

  lemma AdoptableAgrees(w: World, adoptions: seq<Adoption>)
    requires Sane(w)
    ensures RaiseAll(w.db.pools, adoptions).Success? <==> CanAdopt(View(w), adoptions)
  {
    forall key | key in w.db.pools ensures Counted(w.db.pools[key]) {
      assert PoolOk(w.db.rows, w.db.pools, key);
    }
    RaiseAllSucceeds(w.db.pools, adoptions);
    forall a: Adoption ensures
      Adoptable(w.db.pools, a) <==> a.consumed <= I64_MAX && (a.pool, a.epoch) in View(w).grants {}
  }

  lemma AdoptRaises(w: World, adoptions: seq<Adoption>, anchor: HighWaterMark, after: World, key: Key)
    requires Sane(w) && 0 <= anchor.generation && 0 <= anchor.cumulative && key in w.db.pools
    requires CommitAdoption(w.db, adoptions, anchor) == Success(after.db)
    ensures after.db.rows == w.db.rows && key in after.db.pools
    ensures after.db.pools[key].granted == w.db.pools[key].granted
    ensures LedgerInvariant.Adopted(after.db.rows, after.db.pools, key) == Raised(View(w), adoptions)[key]
  {
    AdoptionSound(w.db, adoptions, anchor);
    ViewCounts(w, key);
    TotalsAgree(w.db.rows, w.db.meta.currentEpoch, key, Charged);
  }

  lemma AdoptedView(w: World, adoptions: seq<Adoption>, anchor: HighWaterMark, after: World)
    requires Sane(w) && 0 <= anchor.generation && 0 <= anchor.cumulative
    requires CommitAdoption(w.db, adoptions, anchor) == Success(after.db)
    ensures View(after) ==
            View(w).(adopted := Raised(View(w), adoptions), generation := anchor.generation,
                     cumulative := anchor.cumulative, ext := after.ext, trust := after.trust)
  {
    var raised := Raised(View(w), adoptions);
    assert after.db == w.db.(pools := after.db.pools, meta := after.db.meta) && after.db.pools.Keys == w.db.pools.Keys
        && after.db.meta == w.db.meta.(generation := anchor.generation, cumulative := anchor.cumulative) by {
      AdoptionSound(w.db, adoptions, anchor);
    }
    forall key | key in w.db.pools
      ensures LedgerInvariant.Adopted(after.db.rows, after.db.pools, key) == raised[key]
          && after.db.pools[key].granted == w.db.pools[key].granted
    {
      AdoptRaises(w, adoptions, anchor, after, key);
    }
    assert View(after).grants == View(w).grants;
    assert View(after).adopted == raised;
  }

  lemma AdoptModelled(w: World, c: Command)
    requires Sane(w) && c.Adopt?
    ensures View(Do(w, c)) == ModelDo(View(w), c)
  {
    AdoptableAgrees(w, c.adoptions);
    assert MetaOf(View(w)) == w.db.meta;
    var anchor := Anchor(w.db.meta, w.ext);
    if anchor.Success? && c.io.Durable? && CanAdopt(View(w), c.adoptions) {
      AdoptedView(w, c.adoptions, anchor.value, Do(w, c));
    }
  }

  lemma AdoptAnswers(w: World, c: Command)
    requires Sane(w) && c.Adopt?
    ensures Succeeds(w, c) <==> Accepts(View(w), c)
  {
    AdoptableAgrees(w, c.adoptions);
    assert MetaOf(View(w)) == w.db.meta;
  }

  lemma AdoptRefines(w: World, c: Command)
    requires Tracked(w) && c.Adopt?
    ensures Refines(w, c)
  {
    AdoptModelled(w, c);
    AdoptAnswers(w, c);
  }

  // ---------------------------------------------------------------------
  // Restart.

  lemma AssessAgrees(w: World)
    requires Sane(w)
    ensures ModelAssess(View(w)) == Assess(w.db.meta, w.ext, w.db.rows)
  {
    assert MetaOf(View(w)) == w.db.meta;
    if w.ext.Present? {
      OwnerReads(w, w.ext.mark.last);
      LookupRow(w.db.rows, w.ext.mark.last, w.db.meta.currentEpoch);
    }
  }

  lemma RestartChanges(db: Tables, a: Assessment, external: External, after: Tables)
    requires Restarts(db, a, external, after)
    ensures RowsChange(db.rows, after.rows, Resume(a)) && SamePlaces(db.rows, after.rows)
  {
  }

  lemma RestartParts(w: World)
    requires Sane(w)
    ensures var a, after := Assess(w.db.meta, w.ext, w.db.rows), Do(w, Open);
            && after.ext == w.ext && after.trust == a.verdict && Outcome(w, Open).None?
            && Restarts(w.db, a, w.ext, after.db) == true
            && Follows(w.db.rows, w.db.pools, after.db.rows, after.db.pools) == true
  {
    RestartKept(w);
    NormalizeSound(w.db, Assess(w.db.meta, w.ext, w.db.rows), w.ext);
  }

  /** A restart settles every request the way the model says: the promoted one and
      those mid-dispatch become sent with an unknown id, and the rest of the unsent
      are released only when the record is consistent. */
  lemma OpenRefines(w: World)
    requires Tracked(w)
    ensures Refines(w, Open)
  {
    AssessAgrees(w);
    RestartParts(w);
    RestartChanges(w.db, Assess(w.db.meta, w.ext, w.db.rows), w.ext, Do(w, Open).db);
    MovedView(w, Do(w, Open), Resume(Assess(w.db.meta, w.ext, w.db.rows)));
    OrderStays(w.db.rows, Do(w, Open).db.rows);
  }

  // ---------------------------------------------------------------------
  // Admission.

  function KindOf(refusal: Refusal): Kind {
    match refusal
    case Untrusted(_) => Distrusted
    case Latched(_, _) => LatchSet
    case SafetyInputMissing(_) => InputMissing
    case SafetyInputExpired(_) => InputExpired
    case SafetyBudgetExhausted(_, _) => BudgetShort
    case PoolNotOpen(_, _) => EpochClosed
    case InsufficientQuota(_, _) => QuotaShort
  }

  /** The answer is the one expected: the refusal of that kind, the error, or the
      next id. */
  predicate Answers<T>(r: Result<(T, Admission), LedgerError>, expected: Option<Kind>, next: int) {
    match r
    case Failure(error) => error == Overflow && expected == Some(TooLarge)
    case Success((_, Refused(refusal))) => expected == Some(KindOf(refusal))
    case Success((_, Admitted(id))) => expected.None? && id == next
  }

  lemma {:induction false} SafetyAgrees(safety: map<string, SafetyInput>, keys: seq<string>, liability: int, now: int)
    ensures var expected := ExpectedSafety(safety, keys, liability, now);
            match SafetyRefusal(safety, keys, liability, now)
            case Failure(error) => error == Overflow && expected == Some(TooLarge)
            case Success(None) => expected.None?
            case Success(Some(refusal)) => expected == Some(KindOf(refusal))
  {
    if |keys| != 0 {
      SafetyAgrees(safety, keys[1..], liability, now);
    }
  }

  lemma LatchAgrees(latches: seq<Latch>, pool: string, model: string)
    ensures LatchRefusal(latches, pool, model).Some? <==> Scopes(latches) * {"global", pool, "model:" + model} != {}
    ensures LatchRefusal(latches, pool, model).Some? ==> LatchRefusal(latches, pool, model).value.Latched?
  {
    LatchExactly(latches, pool, model);
    var covering := {"global", pool, "model:" + model};
    if l :| l in latches && LatchApplies(l, pool, model) {
      assert l.scope in Scopes(latches) * covering;
    }
    if scope :| scope in Scopes(latches) * covering {
      var l :| l in latches && !l.cleared && l.scope == scope;
      assert LatchApplies(l, pool, model);
    }
  }

  lemma QuotaAgrees(w: World, pool: string)
    requires Sane(w)
    ensures var key := (pool, w.db.meta.currentEpoch);
            key in w.db.pools ==>
              && Counted(w.db.pools[key])
              && Headroom(View(w), key) == w.db.pools[key].granted - w.db.pools[key].consumed - w.db.pools[key].reserved
  {
    var key := (pool, w.db.meta.currentEpoch);
    if key in w.db.pools {
      ViewCounts(w, key);
      assert PoolOk(w.db.rows, w.db.pools, key);
    }
  }

  /** Admission answers what the model expects, refusal and error included. */
  lemma AnswerAgrees(w: World, request: Request, now: int)
    requires Sane(w) && w.trust.Trusted?
    ensures Answers(Reserve(w.db, request, now), Expected(View(w), request, now), |w.db.rows| + 1)
  {
    SafetyAgrees(w.db.safety, SortDedup(request.required), request.liability, now);
    LatchAgrees(w.db.latches, request.pool, request.model);
    QuotaAgrees(w, request.pool);
    NextIdIsFresh(w.db.rows, w.db.meta.currentEpoch);
  }

  lemma AppendedAbs(rows: seq<Row>, r: Row)
    requires r.root == r.id
    ensures Abs(rows + [r]) == Abs(rows) + [GhostOf(r)]
  {
    var all := rows + [r];
    assert all[..|all| - 1] == rows && all[|all| - 1] == r;
  }

  lemma AppendedRoots(rows: seq<Row>, more: seq<Row>)
    ensures Roots(rows + more) == Roots(rows) + Roots(more)
  {
  }

  lemma NewGhostIs(m: Model, request: Request, r: Row)
    requires Opens(r, |m.owners| + 1, request, m.epoch) && Shape(r)
    ensures GhostOf(r) == NewGhost(m, request)
  {
  }

  lemma AdmittedBooks(w: World, after: World, request: Request)
    requires Reserves(w.db, request, after.db)
    ensures View(after).grants == View(w).grants && View(after).adopted == View(w).adopted
    ensures View(after).safety == Debited(w.db.safety, request.required, request.liability)
  {
  }

  /** Admission adds one request, spanning the current epoch only. */
  lemma AdmittedView(w: World, after: World, request: Request)
    requires Sane(w) && Reserves(w.db, request, after.db) && Valid(after.db)
    requires after.ext == w.ext && after.trust == w.trust
    ensures View(after) ==
            View(w).(requests := View(w).requests + [NewGhost(View(w), request)],
                     owners := View(w).owners + [|w.db.rows| + 1],
                     safety := Debited(w.db.safety, request.required, request.liability))
    ensures after.db.rows == w.db.rows + [after.db.rows[|w.db.rows|]]
    ensures after.db.rows[|w.db.rows|].root == |w.db.rows| + 1
  {
    var r := after.db.rows[|w.db.rows|];
    assert after.db.rows == w.db.rows + [r];
    assert Placed(after.db.rows, |w.db.rows|, after.db.meta.currentEpoch) && Shape(r);
    NewGhostIs(View(w), request, r);
    AppendedAbs(w.db.rows, r);
    AppendedRoots(w.db.rows, [r]);
    assert Roots([r]) == [|w.db.rows| + 1];
    AdmittedBooks(w, after, request);
  }

  lemma AppendedOrder(rows: seq<Row>, r: Row, current: int)
    requires RowsOk(rows, current) && Ordered(rows) && r.root == |rows| + 1
    ensures Ordered(rows + [r])
  {
    forall i | 0 <= i < |rows| ensures rows[i].root < r.root {
      assert Placed(rows, i, current);
    }
  }

  /** The tables after an admission, and when there is one. */
  lemma AdmittingIs(w: World, request: Request, now: int)
    requires Sane(w)
    ensures var after := Admitting(w, request, now);
            var admitted := Expected(View(w), request, now).None?;
            && (!admitted ==> after == w)
            && (admitted ==> after.ext == w.ext && after.trust == w.trust)
            && (admitted ==> Reserves(w.db, request, after.db) == true && Valid(after.db) == true)
    ensures w.trust.Trusted? ==>
              (Reserve(w.db, request, now).Failure? <==> Expected(View(w), request, now) == Some(TooLarge))
  {
    if w.trust.Trusted? {
      AnswerAgrees(w, request, now);
      ReserveSound(w.db, request, now);
    }
  }

  lemma ModelAdmitIs(m: Model, request: Request, now: int)
    ensures ModelAdmit(m, request, now) ==
            if Expected(m, request, now).Some? then m
            else m.(requests := m.requests + [NewGhost(m, request)], owners := m.owners + [|m.owners| + 1],
                    safety := Debited(m.safety, request.required, request.liability))
  {
  }

  lemma AdmitModelled(w: World, request: Request, now: int)
    requires Tracked(w)
    ensures View(Admitting(w, request, now)) == ModelAdmit(View(w), request, now)
    ensures Ordered(Admitting(w, request, now).db.rows)
  {
    AdmittingIs(w, request, now);
    ModelAdmitIs(View(w), request, now);
    if Expected(View(w), request, now).None? {
      var after := Admitting(w, request, now);
      AdmittedView(w, after, request);
      AppendedOrder(w.db.rows, after.db.rows[|w.db.rows|], w.db.meta.currentEpoch);
    }
  }

  lemma AdmitAnswers(w: World, c: Command)
    requires Sane(w) && c.Admit?
    ensures Succeeds(w, c) <==> Accepts(View(w), c)
  {
    AdmittingIs(w, c.request, c.now);
  }

  lemma AdmitRefines(w: World, c: Command)
    requires Tracked(w) && c.Admit?
    ensures Refines(w, c)
  {
    AdmitModelled(w, c.request, c.now);
    AdmitAnswers(w, c);
  }

  // ---------------------------------------------------------------------
  // Rollover.

  lemma ActiveRowListed(w: World, i: nat)
    requires Sane(w) && i < |w.db.rows|
    ensures exists k :: 0 <= k < |View(w).requests| && Alike(View(w).requests[k], w.db.rows[i])
  {
    OwnerReads(w, i + 1);
    FindsListed(View(w).requests, w.db.rows[i].root);
  }

  lemma RequestHasRow(w: World, k: nat)
    requires Sane(w) && k < |View(w).requests|
    ensures exists i :: 0 <= i < |w.db.rows| && Alike(View(w).requests[k], w.db.rows[i])
  {
    AbsReads(w.db.rows, w.db.meta.currentEpoch);
    var g := View(w).requests[k];
    assert Reads(w.db.rows, g);
    assert Alike(g, w.db.rows[g.id - 1]);
  }

  lemma RollAgrees(w: World, grants: seq<(string, nat)>)
    requires Sane(w)
    ensures Sufficient(w.db.rows, grants) <==> CanRoll(View(w), grants)
  {
    var requests := View(w).requests;
    if CanRoll(View(w), grants) {
      forall i: nat | i < |w.db.rows| && IsActive(w.db.rows[i].state)
        ensures GrantFor(grants, w.db.rows[i].pool).Some?
      {
        ActiveRowListed(w, i);
      }
    }
    if Sufficient(w.db.rows, grants) {
      forall k: nat | k < |requests| && IsActive(requests[k].state) ensures GrantFor(grants, requests[k].pool).Some? {
        RequestHasRow(w, k);
      }
    }
  }

  lemma RootsCons(r: Row, rest: seq<Row>)
    requires Climbs(Roots(rest)) && forall x | x in rest :: r.root < x.root
    ensures Climbs(Roots([r] + rest))
  {
    forall j | 0 <= j < |rest| ensures r.root < rest[j].root {
      assert rest[j] in rest;
    }
    assert Roots([r] + rest) == [r.root] + Roots(rest);
  }

  lemma {:induction false} LiveAscends(rows: seq<Row>, current: int)
    requires Ordered(rows)
    ensures Climbs(Roots(Live(rows, current)))
  {
    if |rows| != 0 {
      assert forall i | 0 <= i < |rows[1..]| :: rows[1..][i] == rows[i + 1];
      LiveAscends(rows[1..], current);
      LiveMembers(rows[1..], current);
      var rest := Live(rows[1..], current);
      if IsActive(rows[0].state) && rows[0].epoch == current {
        forall x | x in rest ensures rows[0].root < x.root {
          var i :| 0 <= i < |rows[1..]| && rows[1..][i] == x;
          assert rows[i + 1] == x;
        }
        RootsCons(rows[0], rest);
      }
    }
  }

  lemma {:induction false} ActiveMembers(requests: seq<Ghost>)
    ensures forall id :: id in ActiveIds(requests) <==> exists g | g in requests :: g.id == id && IsActive(g.state)
  {
    if |requests| != 0 {
      ActiveMembers(requests[1..]);
      assert requests == [requests[0]] + requests[1..];
    }
  }

  lemma ClimbsCons(x: int, rest: seq<int>)
    requires Climbs(rest) && forall y | y in rest :: x < y
    ensures Climbs([x] + rest)
  {
    forall j | 0 <= j < |rest| ensures x < rest[j] {
      assert rest[j] in rest;
    }
  }

  lemma {:induction false} ActiveClimbs(requests: seq<Ghost>)
    requires IdsAscend(requests)
    ensures Climbs(ActiveIds(requests))
  {
    if |requests| != 0 {
      var first, rest := requests[0], requests[1..];
      assert forall k | 0 <= k < |rest| :: rest[k] == requests[k + 1];
      ActiveClimbs(rest);
      ActiveMembers(rest);
      forall id | id in ActiveIds(rest) ensures first.id < id {
        var g :| g in rest && g.id == id && IsActive(g.state);
        var k :| 0 <= k < |rest| && rest[k] == g;
        assert requests[k + 1] == g;
      }
      ClimbsCons(first.id, ActiveIds(rest));
    }
  }

  lemma HeadIn(a: seq<int>)
    ensures |a| > 0 ==> a[0] in a
  {
  }

  /** Two climbing lists of the same numbers are the same list. */
  lemma {:induction false} ClimbsOnce(a: seq<int>, b: seq<int>)
    requires Climbs(a) && Climbs(b) && forall x :: x in a <==> x in b
    ensures a == b
    decreases |a|
  {
    if |a| != 0 {
      assert a[0] in b && b[0] in a;
      assert a == [a[0]] + a[1..] && b == [b[0]] + b[1..];
      assert a[0] == b[0];
      forall x ensures x in a[1..] <==> x in b[1..] {
        assert x in a[1..] ==> x in a && x != a[0];
        assert x in b[1..] ==> x in b && x != b[0];
      }
      ClimbsOnce(a[1..], b[1..]);
    } else {
      HeadIn(b);
    }
  }

  lemma LiveRootIsActive(w: World, r: Row)
    requires Sane(w) && r in Live(w.db.rows, w.db.meta.currentEpoch)
    ensures exists g | g in Abs(w.db.rows) :: g.id == r.root && IsActive(g.state)
  {
    LiveIsActive(w.db.rows, w.db.meta.currentEpoch, r);
    ActiveRowListed(w, r.root - 1);
    var k :| 0 <= k < |View(w).requests| && Alike(View(w).requests[k], w.db.rows[r.root - 1]);
    assert Abs(w.db.rows)[k] in Abs(w.db.rows);
  }

  lemma RootsHold(rows: seq<Row>, root: int)
    ensures root in Roots(rows) <==> exists r | r in rows :: r.root == root
  {
    if root in Roots(rows) {
      var i :| 0 <= i < |rows| && Roots(rows)[i] == root;
      assert rows[i] in rows;
    }
    if r :| r in rows && r.root == root {
      var i :| 0 <= i < |rows| && rows[i] == r;
      assert Roots(rows)[i] == root;
    }
  }

  lemma LiveOrNot(w: World, id: int)
    requires Sane(w)
    ensures (exists r | r in Live(w.db.rows, w.db.meta.currentEpoch) :: r.root == id) <==>
            (exists g | g in Abs(w.db.rows) :: g.id == id && IsActive(g.state))
  {
    var requests := Abs(w.db.rows);
    if r :| r in Live(w.db.rows, w.db.meta.currentEpoch) && r.root == id {
      LiveRootIsActive(w, r);
    }
    if g :| g in requests && g.id == id && IsActive(g.state) {
      var k :| 0 <= k < |requests| && requests[k] == g;
      AbsReads(w.db.rows, w.db.meta.currentEpoch);
      assert Reads(w.db.rows, requests[k]);
      LiveIffActive(w.db, g);
    }
  }

  /** Rollover copies the active requests in the order the model has them. */
  lemma CopiesInOrder(w: World)
    requires Tracked(w)
    ensures Roots(Live(w.db.rows, w.db.meta.currentEpoch)) == ActiveIds(Abs(w.db.rows))
  {
    var requests, live := Abs(w.db.rows), Live(w.db.rows, w.db.meta.currentEpoch);
    AbsReads(w.db.rows, w.db.meta.currentEpoch);
    LiveAscends(w.db.rows, w.db.meta.currentEpoch);
    ActiveClimbs(requests);
    ActiveMembers(requests);
    forall id ensures id in Roots(live) <==> id in ActiveIds(requests) {
      RootsHold(live, id);
      LiveOrNot(w, id);
    }
    ClimbsOnce(Roots(live), ActiveIds(requests));
  }

  lemma RolledOrder(rows: seq<Row>, current: int, epoch: int)
    requires Ordered(rows) && RowsOk(rows, current) && current < epoch
    ensures Ordered(rows + Shadows(Live(rows, current), |rows|, epoch))
  {
    var live := Live(rows, current);
    LiveAscends(rows, current);
    forall i | 0 <= i < |rows| ensures rows[i].epoch < epoch {
      assert Placed(rows, i, current);
    }
    forall i, j | 0 <= i < j < |live| ensures live[i].root < live[j].root {
      assert Roots(live)[i] < Roots(live)[j];
    }
  }

  lemma RolledKeys(db: Tables, epoch: int, grants: seq<(string, nat)>, after: Tables)
    requires Advances(db, epoch, grants, after)
    ensures after.pools.Keys == db.pools.Keys + NewKeys(epoch, grants)
  {
    forall key | key in after.pools && key !in db.pools ensures key in NewKeys(epoch, grants) {
      GrantListed(grants, key.0);
      var g := (key.0, GrantFor(grants, key.0).value);
      assert g in grants && (g.0, epoch) == key;
    }
  }

  lemma SameMaps(a: map<Key, int>, b: map<Key, int>)
    requires a.Keys == b.Keys && forall key | key in a :: a[key] == b[key]
    ensures a == b
  {
  }

  lemma GrantAt(w: World, epoch: int, grants: seq<(string, nat)>, after: Tables, key: Key)
    requires Advances(w.db, epoch, grants, after) && key in after.pools
    requires key in View(w).grants.Keys + NewKeys(epoch, grants)
    ensures after.pools[key].granted == WithGrants(View(w), epoch, grants)[key]
  {
  }

  lemma AdoptionAt(w: World, epoch: int, grants: seq<(string, nat)>, after: Tables, key: Key)
    requires Advances(w.db, epoch, grants, after) && key in after.pools
    ensures LedgerInvariant.Adopted(after.rows, after.pools, key) == AdoptedAt(View(w), key)
  {
    if key in w.db.pools {
      assert Total(after.rows, key, Charged) == Total(w.db.rows, key, Charged);
    }
  }

  lemma RolledBooks(w: World, epoch: int, grants: seq<(string, nat)>, after: World)
    requires Advances(w.db, epoch, grants, after.db)
    ensures View(after).grants == WithGrants(View(w), epoch, grants)
    ensures View(after).adopted ==
            map key | key in View(w).grants.Keys + NewKeys(epoch, grants) :: AdoptedAt(View(w), key)
  {
    RolledKeys(w.db, epoch, grants, after.db);
    var keys := View(w).grants.Keys + NewKeys(epoch, grants);
    assert View(w).grants.Keys == w.db.pools.Keys && after.db.pools.Keys == keys;
    var adopted := map key | key in keys :: AdoptedAt(View(w), key);
    forall key | key in keys
      ensures View(after).grants[key] == WithGrants(View(w), epoch, grants)[key]
      ensures View(after).adopted[key] == adopted[key]
    {
      GrantAt(w, epoch, grants, after.db, key);
      AdoptionAt(w, epoch, grants, after.db, key);
    }
    SameMaps(View(after).grants, WithGrants(View(w), epoch, grants));
    SameMaps(View(after).adopted, adopted);
  }

  lemma RolledRequests(w: World, epoch: int, grants: seq<(string, nat)>, after: World)
    requires Tracked(w) && w.db.meta.currentEpoch < epoch && Advances(w.db, epoch, grants, after.db)
    ensures View(after).requests == Rolled(View(w).requests, epoch)
    ensures View(after).owners == View(w).owners + ActiveIds(View(w).requests)
    ensures Ordered(after.db.rows)
  {
    var live := Live(w.db.rows, w.db.meta.currentEpoch);
    AbsRolls(w.db, epoch);
    CopiesInOrder(w);
    AppendedRoots(w.db.rows, Shadows(live, |w.db.rows|, epoch));
    assert Roots(Shadows(live, |w.db.rows|, epoch)) == Roots(live);
    RolledOrder(w.db.rows, w.db.meta.currentEpoch, epoch);
  }

  lemma RollingIs(w: World, epoch: int, grants: seq<(string, nat)>)
    requires Sane(w)
    ensures var after := Rolling(w, epoch, grants);
            var moves := w.db.meta.currentEpoch < epoch && CanRoll(View(w), grants);
            && (!moves ==> after == w)
            && (moves ==> after.ext == w.ext && after.trust == w.trust)
            && (moves ==> Advances(w.db, epoch, grants, after.db) == true)
    ensures Transactions.Rollover(w.db, epoch, grants).Success? <==>
            epoch <= w.db.meta.currentEpoch || CanRoll(View(w), grants)
    ensures w.db.meta.currentEpoch < epoch && CanRoll(View(w), grants) ==>
              Transactions.Rollover(w.db, epoch, grants).value.1
              == Advanced(|Live(w.db.rows, w.db.meta.currentEpoch)|)
  {
    if w.db.meta.currentEpoch < epoch {
      RollAgrees(w, grants);
      RollSucceedsExactly(w.db, epoch, grants);
      RolloverSound(w.db, epoch, grants);
    }
  }

  lemma ModelRollIs(m: Model, epoch: int, grants: seq<(string, nat)>)
    ensures ModelRoll(m, epoch, grants) ==
            if epoch <= m.epoch || !CanRoll(m, grants) then m
            else m.(requests := Rolled(m.requests, epoch), owners := m.owners + ActiveIds(m.requests), epoch := epoch,
                    grants := WithGrants(m, epoch, grants),
                    adopted := map key | key in m.grants.Keys + NewKeys(epoch, grants) :: AdoptedAt(m, key))
  {
  }

  lemma RollModelled(w: World, epoch: int, grants: seq<(string, nat)>)
    requires Tracked(w)
    ensures View(Rolling(w, epoch, grants)) == ModelRoll(View(w), epoch, grants)
    ensures Ordered(Rolling(w, epoch, grants).db.rows)
  {
    RollingIs(w, epoch, grants);
    ModelRollIs(View(w), epoch, grants);
    if w.db.meta.currentEpoch < epoch && CanRoll(View(w), grants) {
      RolledRequests(w, epoch, grants, Rolling(w, epoch, grants));
      RolledBooks(w, epoch, grants, Rolling(w, epoch, grants));
    }
  }

  lemma RollAnswers(w: World, c: Command)
    requires Sane(w) && c.RollTo?
    ensures Succeeds(w, c) <==> Accepts(View(w), c)
  {
    RollingIs(w, c.epoch, c.grants);
  }

  lemma RollRefines(w: World, c: Command)
    requires Tracked(w) && c.RollTo?
    ensures Refines(w, c)
  {
    RollModelled(w, c.epoch, c.grants);
    RollAnswers(w, c);
  }

  // ---------------------------------------------------------------------
  // The rest, and runs.

  lemma ClearedScopes(latches: seq<Latch>, scope: string, cleared: seq<Latch>)
    requires |cleared| == |latches|
    requires forall i | 0 <= i < |latches| ::
               cleared[i] == if latches[i].scope == scope then latches[i].(cleared := true) else latches[i]
    ensures Scopes(cleared) == Scopes(latches) - {scope}
  {
    forall other ensures other in Scopes(cleared) <==> other in Scopes(latches) && other != scope {
      if l :| l in cleared && !l.cleared && l.scope == other {
        var i :| 0 <= i < |cleared| && cleared[i] == l;
        assert latches[i] == l && l in latches;
      }
      if l :| l in latches && !l.cleared && l.scope == other && other != scope {
        var i :| 0 <= i < |latches| && latches[i] == l;
        assert cleared[i] == l && l in cleared;
      }
    }
  }

  lemma OneScope(l: Latch)
    requires !l.cleared
    ensures Scopes([l]) == {l.scope}
  {
    assert l in [l];
  }

  lemma LatchRefines(w: World, c: Command)
    requires Tracked(w) && (c.SetLatch? || c.Unlatch?)
    ensures Refines(w, c)
  {
    if c.SetLatch? {
      ScopesJoin(w.db.latches, [Latch(c.scope, Manual(c.text), false)]);
      OneScope(Latch(c.scope, Manual(c.text), false));
    } else {
      ClearedScopes(w.db.latches, c.scope, Do(w, c).db.latches);
    }
  }

  lemma OtherRefines(w: World, c: Command)
    requires Tracked(w) && (c.CleanClose? || c.Verify? || c.Withdraw?)
    ensures Refines(w, c)
  {
  }

  /** One step. */
  lemma StepRefines(w: World, c: Command)
    requires Tracked(w)
    ensures Refines(w, c) == true && Tracked(Do(w, c)) == true
  {
    assert Sane(Do(w, c)) by {
      StepKeeps(w, c);
    }
    assert Refines(w, c) by {
      if IsGroupCommand(c) {
        GroupRefines(w, c);
      } else if c.Open? {
        OpenRefines(w);
      } else if c.Admit? {
        AdmitRefines(w, c);
      } else if c.Begin? {
        BeginRefines(w, c);
      } else if c.Adopt? {
        AdoptRefines(w, c);
      } else if c.RollTo? {
        RollRefines(w, c);
      } else if c.SetLatch? || c.Unlatch? {
        LatchRefines(w, c);
      } else {
        OtherRefines(w, c);
      }
    }
  }

  lemma {:induction false} RunRefines(w: World, cs: seq<Command>)
    requires Tracked(w)
    ensures Tracked(Run(w, cs)) && View(Run(w, cs)) == ModelRun(View(w), cs)
    decreases |cs|
  {
    if |cs| != 0 {
      StepRefines(w, cs[0]);
      RunRefines(Do(w, cs[0]), cs[1..]);
    }
  }

  lemma StartsBlank()
    ensures Tracked(INITIAL) && View(INITIAL) == BLANK
  {
    InitialSane();
    assert Roots([]) == [] && Scopes([]) == {};
  }

  /** Refinement. From a new ledger, through any calls, lost commits, crashes and
      restarts, the ledger stands for exactly the state the model is in. */
  lemma LedgerRefinesModel(cs: seq<Command>)
    ensures View(Run(INITIAL, cs)) == ModelRun(BLANK, cs)
  {
    StartsBlank();
    RunRefines(INITIAL, cs);
  }
}
