/** Adoption of recovered consumption, and normalisation after a restart. */
module Recovery {
  import opened Results
  import opened ReservationState
  import opened Tables
  import opened Trust
  import opened Transactions
  import opened LedgerInvariant
  import opened GroupTransitions

  // ---------------------------------------------------------------------
  // Adoption.

  /** The highest of the recorded and the recovered consumption of `key`. */
  function Highest(consumed: int, adoptions: seq<Adoption>, key: Key): int
    decreases |adoptions|
  {
    if |adoptions| == 0 then consumed
    else
      Highest(if (adoptions[0].pool, adoptions[0].epoch) == key then Max(consumed, adoptions[0].consumed) else consumed,
              adoptions[1..], key)
  }

  lemma {:induction false} HighestRises(consumed: int, adoptions: seq<Adoption>, key: Key)
    ensures consumed <= Highest(consumed, adoptions, key)
    ensures forall a | a in adoptions && (a.pool, a.epoch) == key :: a.consumed <= Highest(consumed, adoptions, key)
    decreases |adoptions|
  {
    if |adoptions| != 0 {
      assert adoptions == [adoptions[0]] + adoptions[1..];
      var a := adoptions[0];
      HighestRises(if (a.pool, a.epoch) == key then Max(consumed, a.consumed) else consumed, adoptions[1..], key);
    }
  }

  lemma {:induction false} RaisesToHighest(pools: map<Key, Counters>, adoptions: seq<Adoption>)
    requires forall key | key in pools :: Counted(pools[key])
    ensures match RaiseAll(pools, adoptions)
            case Failure(error) =>
              || (error == Overflow && exists a | a in adoptions :: a.consumed > I64_MAX)
              || (error == Integrity(NotOpen) && exists a | a in adoptions :: (a.pool, a.epoch) !in pools)
            case Success(raised) =>
              && raised.Keys == pools.Keys
              && forall key | key in pools ::
                   && raised[key] == pools[key].(consumed := Highest(pools[key].consumed, adoptions, key))
                   && Counted(raised[key])
    decreases |adoptions|
  {
    if |adoptions| != 0 {
      assert adoptions == [adoptions[0]] + adoptions[1..] && adoptions[0] in adoptions;
      var a := adoptions[0];
      var key := (a.pool, a.epoch);
      if a.consumed <= I64_MAX && key in pools {
        var next := if a.consumed > pools[key].consumed then pools[key := pools[key].(consumed := a.consumed)] else pools;
        RaisesToHighest(next, adoptions[1..]);
      }
    }
  }

  /** The value fits a counter, and there is one to raise. */
  predicate Adoptable(pools: map<Key, Counters>, a: Adoption) {
    a.consumed <= I64_MAX && (a.pool, a.epoch) in pools
  }

  /** Exactly which adoptions can be committed. */
  lemma {:induction false} RaiseAllSucceeds(pools: map<Key, Counters>, adoptions: seq<Adoption>)
    requires forall key | key in pools :: Counted(pools[key])
    ensures RaiseAll(pools, adoptions).Success? <==> forall a | a in adoptions :: Adoptable(pools, a)
    decreases |adoptions|
  {
    if |adoptions| != 0 {
      assert adoptions == [adoptions[0]] + adoptions[1..] && adoptions[0] in adoptions;
      var a := adoptions[0];
      var key := (a.pool, a.epoch);
      if Adoptable(pools, a) {
        var next := if a.consumed > pools[key].consumed then pools[key := pools[key].(consumed := a.consumed)] else pools;
        RaiseAllSucceeds(next, adoptions[1..]);
        assert forall b | b in adoptions[1..] :: Adoptable(pools, b) <==> Adoptable(next, b);
      }
    }
  }

  /** Adoption only raises consumption, to exactly the highest value adopted,
      and leaves rows, grants and reservations alone. */
  lemma AdoptionSound(db: Tables, adoptions: seq<Adoption>, anchor: HighWaterMark)
    requires Valid(db) && 0 <= anchor.generation && 0 <= anchor.cumulative
    ensures match CommitAdoption(db, adoptions, anchor)
            case Failure(error) =>
              || error == Overflow
              || (error == Integrity(NotOpen) && exists a | a in adoptions :: (a.pool, a.epoch) !in db.pools)
            case Success(after) =>
              && Valid(after)
              && (Bounded(db) ==> Bounded(after))
              && after == db.(pools := after.pools,
                              meta := db.meta.(generation := anchor.generation, cumulative := anchor.cumulative))
              && after.pools.Keys == db.pools.Keys
              && forall key | key in db.pools ::
                   && after.pools[key] == db.pools[key].(consumed := Highest(db.pools[key].consumed, adoptions, key))
                   && db.pools[key].consumed <= after.pools[key].consumed
  {
    forall key | key in db.pools ensures Counted(db.pools[key]) {
      assert PoolOk(db.rows, db.pools, key);
    }
    RaisesToHighest(db.pools, adoptions);
    forall key | key in db.pools ensures db.pools[key].consumed <= Highest(db.pools[key].consumed, adoptions, key) {
      HighestRises(db.pools[key].consumed, adoptions, key);
    }
  }

  /** The record's figures as adoption reads them: none counts as nothing dispatched. */
  function SeenIn(external: External): (int, int) {
    if external.Present? then (external.mark.generation, external.mark.cumulative) else (0, 0)
  }

  /** The anchor is one generation past both records, loses nothing either had counted and
      adds nothing to it, and names no group; it only fails when there is no next generation. */
  lemma AnchorExactly(meta: Meta, external: External)
    requires meta.generation >= 0 && Sensible(external)
    ensures var (generation, cumulative) := SeenIn(external);
            match Anchor(meta, external)
            case Failure(error) => error == Overflow && (meta.generation >= I64_MAX || generation >= I64_MAX)
            case Success(mark) =>
              && mark.last == 0
              && mark.generation > meta.generation && mark.generation > generation
              && mark.generation - 1 in {meta.generation, generation}
              && mark.cumulative >= meta.cumulative && mark.cumulative >= cumulative
              && mark.cumulative in {meta.cumulative, cumulative}
  {
  }

  // ---------------------------------------------------------------------
  // Normalisation.

  /** A record that parses never holds negative totals. */
  predicate Sensible(external: External) {
    external.Present? ==> 0 <= external.mark.generation && 0 <= external.mark.cumulative
  }

  /** The state a row is left in by a restart. */
  function Restarted(r: Row, a: Assessment): State {
    if r.state.Dispatching? then DispatchedIdUnknown
    else if !r.state.Reserved? then r.state
    else if a.promote == Some(r.root) || !Interpretable(a.verdict) then DispatchedIdUnknown
    else ReleasedUnsent
  }

  /** What a restart leaves: every row in its restarted state, the shutdown
      mark cleared, and the meta advanced to the external record exactly when a
      dispatch was promoted. */
  predicate Restarts(db: Tables, a: Assessment, external: External, after: Tables) {
    && |after.rows| == |db.rows|
    && (forall i | 0 <= i < |db.rows| :: after.rows[i] == db.rows[i].(state := Restarted(db.rows[i], a)))
    && after.meta == (if a.promote.Some? && external.Present?
                      then db.meta.(generation := external.mark.generation, cumulative := external.mark.cumulative)
                      else db.meta).(clean := false)
    && after.safety == db.safety && after.latches == db.latches
  }

  lemma ResolvedKeeps(db: Tables, a: Assessment, external: External)
    requires Valid(db)
    requires Sensible(external)
    ensures Kept(db, Resolved(db, a, external))
  {
    var promoted := Promoted(db, a, external);
    if a.promote.Some? && external.Present? {
      RelabelKeeps(db, Selector(a.promote, Reserved), IdUnknown);
    }
    assert Kept(db, promoted);
    RelabelKeeps(promoted, Selector(None, Dispatching), IdUnknown);
    KeptTwice(db, promoted, promoted.(rows := Update(promoted.rows, Selector(None, Dispatching), IdUnknown)));
  }

  /** Normalisation always succeeds, keeps the books and the money bound, and
      leaves no row that could still be dispatched or is mid-dispatch. */
  lemma NormalizeSound(db: Tables, a: Assessment, external: External)
    requires Valid(db)
    requires Sensible(external)
    requires a.promote.Some? ==> external.Present?
    ensures match Normalize(db, a, external)
            case Failure(_) => false
            case Success(after) => Restarts(db, a, external, after) && Kept(db, after)
  {
    var sent, unsent := Resolved(db, a, external), Selector(None, Reserved);
    ResolvedKeeps(db, a, external);
    if Interpretable(a.verdict) {
      FinishKeeps(sent, unsent, Finish(ReleasedUnsent, None), 0);
    } else {
      RelabelKeeps(sent, unsent, IdUnknown);
    }
    KeptTwice(db, sent, Normalize(db, a, external).value);
    ShapeAll(db.rows, db.meta.currentEpoch);
    NormalizeRestarts(db, a, external);
  }

  function Patch1(r: Row, sel: Selector, p: Patch): Row {
    if Selects(sel, r) then Patched(r, p) else r
  }

  lemma RowRestarts(r: Row, a: Assessment)
    requires Shape(r)
    ensures var r1 := if a.promote.Some? then Patch1(r, Selector(a.promote, Reserved), IdUnknown) else r;
            var r2 := Patch1(r1, Selector(None, Dispatching), IdUnknown);
            var last := if Interpretable(a.verdict) then Finish(ReleasedUnsent, None) else IdUnknown;
            Patch1(r2, Selector(None, Reserved), last) == r.(state := Restarted(r, a))
  {
  }

  lemma NormalizeRestarts(db: Tables, a: Assessment, external: External)
    requires forall r | r in db.rows :: Shape(r)
    requires Normalize(db, a, external).Success?
    requires a.promote.Some? ==> external.Present?
    ensures Restarts(db, a, external, Normalize(db, a, external).value)
  {
    var after := Normalize(db, a, external).value;
    forall i | 0 <= i < |db.rows| ensures after.rows[i] == db.rows[i].(state := Restarted(db.rows[i], a)) {
      assert db.rows[i] in db.rows;
      RowRestarts(db.rows[i], a);
    }
  }

  /** A promoted group is one the assessment named: its row is RESERVED, with
      exactly the liability the external record is ahead by. */
  lemma PromotionNamed(db: Tables, external: External)
    requires Valid(db) && external.Present? && Assess(db.meta, external, db.rows).promote.Some?
    ensures var id := Assess(db.meta, external, db.rows).promote.value;
            && id == external.mark.last && 1 <= id <= |db.rows|
            && db.rows[id - 1].state.Reserved?
            && external.mark.generation == db.meta.generation + 1
            && external.mark.cumulative == db.meta.cumulative + db.rows[id - 1].liability
  {
    LookupRow(db.rows, external.mark.last, db.meta.currentEpoch);
  }
}
