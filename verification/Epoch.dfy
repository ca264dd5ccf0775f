/**
Daily epochs and the window around each boundary in which admission stops
(`epoch.rs`), and the request path and clock loop that consult it (`server.rs`,
`admission.rs`, `runtime.rs`).
*/
module Epoch {
  import opened Results

  const MIN_OPEN_DELAY := 300
  const MAX_READING_AGE := 3600

  /** The UTC day containing a unix time; `/` rounds down, as `div_euclid`. */
  function EpochOf(unix: int): int {
    unix / 86400
  }

  function EndOf(epoch: int): int {
    (epoch + 1) * 86400
  }

  datatype Reading = Reading(upstreamUnix: int, localUnix: int)

  datatype ClockPolicy = ClockPolicy(uncertainty: int, openDelay: int, maxAge: int)

  datatype PolicyError = UncertaintyTooSmall | OpenDelayTooShort | ReadingAgeOutOfRange

  function NewPolicy(uncertainty: int, openDelay: int, maxAge: int): (r: Result<ClockPolicy, PolicyError>)
    ensures r.Success? <==> uncertainty >= 1 && openDelay >= 300 && 1 <= maxAge <= 3600
    ensures r.Success? ==>
              r.value.uncertainty == uncertainty && r.value.openDelay == openDelay && r.value.maxAge == maxAge
    ensures r == Failure(UncertaintyTooSmall) <==> uncertainty < 1
    ensures r == Failure(OpenDelayTooShort) <==> uncertainty >= 1 && openDelay < 300
  {
    if uncertainty < 1 then Failure(UncertaintyTooSmall)
    else if openDelay < MIN_OPEN_DELAY then Failure(OpenDelayTooShort)
    else if !(1 <= maxAge <= MAX_READING_AGE) then Failure(ReadingAgeOutOfRange)
    else Success(ClockPolicy(uncertainty, openDelay, maxAge))
  }

  datatype ClosedReason = NearBoundary | NoTrustedTime | ClockWentBackwards

  datatype Window = Open | Closed(reason: ClosedReason) | RolloverDue(epoch: int)

  function WindowAt(p: ClockPolicy, current: int, localNow: int, reading: Option<Reading>): Window {
    if reading.None? then Closed(NoTrustedTime)
    else
      var elapsed := localNow - reading.value.localUnix;
      if elapsed < 0 then Closed(ClockWentBackwards)
      else if elapsed > p.maxAge then Closed(NoTrustedTime)
      else
        var estimate := reading.value.upstreamUnix + elapsed;
        if estimate + p.uncertainty < EndOf(current) then Open
        else
          var due := EpochOf(estimate - p.uncertainty - p.openDelay);
          if due > current then RolloverDue(due) else Closed(NearBoundary)
  }

  // ---------------------------------------------------------------------
  // What a window says.

  /** The reading is young enough to be used at all. */
  predicate Usable(p: ClockPolicy, localNow: int, reading: Option<Reading>) {
    reading.Some? && 0 <= localNow - reading.value.localUnix <= p.maxAge
  }

  /** Upstream times a usable reading leaves possible. */
  predicate Possible(p: ClockPolicy, localNow: int, reading: Option<Reading>, t: int)
    requires reading.Some?
  {
    var estimate := reading.value.upstreamUnix + localNow - reading.value.localUnix;
    estimate - p.uncertainty <= t <= estimate + p.uncertainty
  }

  lemma DayOf(t: int, day: int)
    ensures EpochOf(t) >= day <==> t >= day * 86400
    ensures EpochOf(t) <= day <==> t < EndOf(day)
  {
  }

  /** A window opens exactly when no possible time is past the current epoch, and
      a rollover is due, to exactly the latest epoch that has begun by the opening
      delay at every possible time, exactly when that is a later one. */
  lemma WindowExactly(p: ClockPolicy, current: int, localNow: int, reading: Option<Reading>)
    requires Usable(p, localNow, reading) && p.uncertainty >= 0 && p.openDelay >= 0
    ensures WindowAt(p, current, localNow, reading).Open? <==>
              forall t | Possible(p, localNow, reading, t) :: EpochOf(t) <= current
    ensures forall day | day > current ::
              (forall t | Possible(p, localNow, reading, t) :: t >= day * 86400 + p.openDelay) <==>
              (WindowAt(p, current, localNow, reading).RolloverDue?
                  && day <= WindowAt(p, current, localNow, reading).epoch)
  {
    var estimate := reading.value.upstreamUnix + localNow - reading.value.localUnix;
    var first, last := estimate - p.uncertainty, estimate + p.uncertainty;
    assert Possible(p, localNow, reading, first) && Possible(p, localNow, reading, last);
    forall t | Possible(p, localNow, reading, t) ensures EpochOf(t) <= EpochOf(last) {
      DayOf(last, EpochOf(t));
      DayOf(t, EpochOf(t));
    }
    DayOf(last, current);
    var window := WindowAt(p, current, localNow, reading);
    forall day | day > current
      ensures (forall t | Possible(p, localNow, reading, t) :: t >= day * 86400 + p.openDelay) <==>
              (window.RolloverDue? && day <= window.epoch)
    {
      DayOf(first - p.openDelay, day);
      DayOf(last, current);
      DayOf(first - p.openDelay, current);
    }
  }

  /** Why a window is closed: the clock ran backwards; there is no reading, or it is too old;
      or it is usable, the epoch may be over, and no later one has surely been open long
      enough. */
  lemma ClosedExactly(p: ClockPolicy, current: int, localNow: int, reading: Option<Reading>)
    requires p.uncertainty >= 0 && p.openDelay >= 0 && p.maxAge >= 0
    ensures var window := WindowAt(p, current, localNow, reading);
            && (window == Closed(ClockWentBackwards) <==> reading.Some? && localNow < reading.value.localUnix)
            && (window == Closed(NoTrustedTime) <==>
                  reading.None? || localNow > reading.value.localUnix + p.maxAge)
            && (window == Closed(NearBoundary) <==>
                  && Usable(p, localNow, reading)
                  && (exists t | Possible(p, localNow, reading, t) :: EpochOf(t) > current)
                  && exists t | Possible(p, localNow, reading, t) :: t < (current + 1) * 86400 + p.openDelay)
  {
    if Usable(p, localNow, reading) {
      WindowExactly(p, current, localNow, reading);
      NearBoundaryExactly(p, current, localNow, reading);
    }
  }

  lemma NearBoundaryExactly(p: ClockPolicy, current: int, localNow: int, reading: Option<Reading>)
    requires Usable(p, localNow, reading) && p.uncertainty >= 0 && p.openDelay >= 0
    ensures WindowAt(p, current, localNow, reading) == Closed(NearBoundary) <==>
              && (exists t | Possible(p, localNow, reading, t) :: EpochOf(t) > current)
              && exists t | Possible(p, localNow, reading, t) :: t < (current + 1) * 86400 + p.openDelay
  {
    var estimate := reading.value.upstreamUnix + localNow - reading.value.localUnix;
    var first, last := estimate - p.uncertainty, estimate + p.uncertainty;
    assert Possible(p, localNow, reading, first) && Possible(p, localNow, reading, last);
    DayOf(last, current);
    DayOf(first - p.openDelay, current);
    forall t | Possible(p, localNow, reading, t) ensures EpochOf(t) > current ==> EpochOf(last) > current {
      DayOf(t, current);
    }
  }

  /** The last upstream time a reading leaves possible. */
  function Latest(p: ClockPolicy, localNow: int, reading: Reading): int {
    reading.upstreamUnix + localNow - reading.localUnix + p.uncertainty
  }

  /** How long an open window stays good. The reservation is committed some time
      after the window was computed, with calls to the provider's counter between
      the two. It is surely still within the epoch exactly when that took less than
      the slack: the time from the last possible present to the epoch's end. */
  lemma SlackExactly(p: ClockPolicy, current: int, localNow: int, reading: Option<Reading>, delay: nat)
    requires Usable(p, localNow, reading) && p.uncertainty >= 0
    ensures var inTime := delay < EndOf(current) - Latest(p, localNow, reading.value);
            && ((forall t | Possible(p, localNow, reading, t) :: EpochOf(t + delay) <= current) <==> inTime)
            && ((exists t | Possible(p, localNow, reading, t) :: EpochOf(t) >= current) ==>
                  ((forall t | Possible(p, localNow, reading, t) && EpochOf(t) >= current ::
                      EpochOf(t + delay) == current) <==> inTime))
  {
    var last := Latest(p, localNow, reading.value);
    assert Possible(p, localNow, reading, last);
    DayOf(last + delay, current);
    DayOf(last, current);
    forall t | Possible(p, localNow, reading, t)
      ensures EpochOf(t + delay) <= EpochOf(last + delay)
      ensures EpochOf(t) >= current ==> EpochOf(last) >= current && EpochOf(t + delay) >= current
    {
      DayOf(last + delay, EpochOf(t + delay));
      DayOf(t + delay, EpochOf(t + delay));
      DayOf(t, current);
      DayOf(t + delay, current);
    }
  }

  /** Startup opens the day its reading falls in at once, without the window. That
      day has begun at every possible time exactly when the reading is at least its
      uncertainty into it. */
  lemma StartupExactly(p: ClockPolicy, reading: Reading)
    requires p.uncertainty >= 0
    ensures (forall t | Possible(p, reading.localUnix, Some(reading), t) :: EpochOf(t) >= EpochOf(reading.upstreamUnix))
            <==> reading.upstreamUnix % 86400 >= p.uncertainty
  {
    var day, first := EpochOf(reading.upstreamUnix), reading.upstreamUnix - p.uncertainty;
    assert Possible(p, reading.localUnix, Some(reading), first);
    DayOf(first, day);
    forall t | Possible(p, reading.localUnix, Some(reading), t) && first >= day * 86400 ensures EpochOf(t) >= day {
      DayOf(t, day);
    }
  }

  // ---------------------------------------------------------------------
  // Runs: any number of requests and clock loops, step by step.

  /** What one request or loop is in the middle of. The ledger's epoch is read
      first, then the clocks, and what they decide is committed later; another one
      may roll over at any point between. `latest` is the last time that was
      possible when the window opened, and `since` the true time, which nobody
      sees. */
  datatype Pending =
    | Looked(epoch: int)
    | Admitting(epoch: int, latest: int, since: int)
    | Rolling(epoch: int)
    | Finished

  /** The ledger's epoch, and everything in progress. */
  datatype Clockwork = Clockwork(epoch: int, pending: seq<Pending>)

  /** `Start` is a start of the process, at the time of its reading, whatever the
      last one was doing; committing that rollover later only helps. */
  datatype Act =
    | Start(taken: Reading)
    | Look
    | Decide(who: nat, localNow: int, reading: Option<Reading>)
    | Commit(who: nat)

  datatype Moment = Moment(trueUnix: int, act: Act)

  /** What is committed, and when. An admission also tells how long it took from
      its window and what slack that had. */
  datatype Event =
    | Starts(epoch: int, at: int)
    | RollsOver(epoch: int, at: int)
    | Admits(epoch: int, at: int, delay: int, slack: int)

  function Decided(p: ClockPolicy, epoch: int, localNow: int, reading: Option<Reading>, at: int): Pending {
    match WindowAt(p, epoch, localNow, reading)
    case Open => Admitting(epoch, Latest(p, localNow, reading.value), at)
    case Closed(_) => Finished
    case RolloverDue(due) => Rolling(due)
  }

  /** Reservations go to whatever epoch the ledger is in when they are made; a
      rollover to an epoch that is not later does nothing. */
  function Committed(s: Clockwork, who: nat, at: int): (Clockwork, seq<Event>)
    requires who < |s.pending|
  {
    var done := s.pending[who := Finished];
    match s.pending[who]
    case Admitting(epoch, latest, since) =>
      (s.(pending := done), [Admits(s.epoch, at, at - since, EndOf(epoch) - latest)])
    case Rolling(epoch) =>
      if epoch <= s.epoch then (s.(pending := done), []) else (Clockwork(epoch, done), [RollsOver(epoch, at)])
    case _ => (s, [])
  }

  function Next(p: ClockPolicy, s: Clockwork, m: Moment): (Clockwork, seq<Event>) {
    match m.act
    case Start(taken) =>
      var day := EpochOf(taken.upstreamUnix);
      if day <= s.epoch then (Clockwork(s.epoch, []), []) else (Clockwork(day, []), [Starts(day, m.trueUnix)])
    case Look => (s.(pending := s.pending + [Looked(s.epoch)]), [])
    case Decide(who, localNow, reading) =>
      if who < |s.pending| && s.pending[who].Looked? then
        (s.(pending := s.pending[who := Decided(p, s.pending[who].epoch, localNow, reading, m.trueUnix)]), [])
      else (s, [])
    case Commit(who) => if who < |s.pending| then Committed(s, who, m.trueUnix) else (s, [])
  }

  function Through(p: ClockPolicy, s: Clockwork, moments: seq<Moment>): seq<Event>
    decreases |moments|
  {
    if |moments| == 0 then []
    else
      var (next, events) := Next(p, s, moments[0]);
      events + Through(p, next, moments[1..])
  }

  predicate Monotone(moments: seq<Moment>, from: int)
    decreases |moments|
  {
    |moments| == 0 || (from <= moments[0].trueUnix && Monotone(moments[1..], moments[0].trueUnix))
  }

  /** A reading's error, while it is young enough to use, is within bounds; and a
      reading the process starts on is not too close to the start of its day. */
  predicate Honest(p: ClockPolicy, m: Moment) {
    match m.act
    case Start(taken) =>
      && Possible(p, taken.localUnix, Some(taken), m.trueUnix)
      && taken.upstreamUnix % 86400 >= p.uncertainty
    case Decide(_, localNow, reading) =>
      Usable(p, localNow, reading) ==> Possible(p, localNow, reading, m.trueUnix)
    case _ => true
  }

  /** No day is opened before it begins, nor by a rollover before its opening delay
      is over; and no admission is for a day that has not begun, nor, if it took less
      than its slack, for one that is over. */
  predicate Safe(p: ClockPolicy, e: Event) {
    match e
    case Starts(epoch, at) => EpochOf(at) >= epoch
    case RollsOver(epoch, at) => at >= epoch * 86400 + p.openDelay
    case Admits(epoch, at, delay, slack) => EpochOf(at) >= epoch && (delay < slack ==> EpochOf(at) == epoch)
  }

  /** What is pending is in step with the ledger and the true time. */
  predicate InStep(p: ClockPolicy, ledger: int, now: int, pending: Pending) {
    match pending
    case Looked(epoch) => epoch <= ledger
    case Admitting(epoch, latest, since) => epoch <= ledger && since <= latest && since <= now
    case Rolling(epoch) => now >= epoch * 86400 + p.openDelay
    case Finished => true
  }

  predicate Sound(p: ClockPolicy, s: Clockwork, now: int) {
    EpochOf(now) >= s.epoch && forall k | 0 <= k < |s.pending| :: InStep(p, s.epoch, now, s.pending[k])
  }

  lemma TimePasses(p: ClockPolicy, s: Clockwork, now: int, later: int)
    requires Sound(p, s, now) && now <= later
    ensures Sound(p, s, later)
  {
    DayOf(now, s.epoch);
    DayOf(later, s.epoch);
  }

  lemma DecidedInStep(p: ClockPolicy, ledger: int, epoch: int, m: Moment)
    requires m.act.Decide? && Honest(p, m) && epoch <= ledger
    ensures InStep(p, ledger, m.trueUnix, Decided(p, epoch, m.act.localNow, m.act.reading, m.trueUnix))
  {
    if Decided(p, epoch, m.act.localNow, m.act.reading, m.trueUnix).Rolling? {
      var first := m.act.reading.value.upstreamUnix + m.act.localNow - m.act.reading.value.localUnix - p.uncertainty;
      DayOf(first - p.openDelay, EpochOf(first - p.openDelay));
    }
  }

  lemma CommittedSafe(p: ClockPolicy, s: Clockwork, who: nat, at: int)
    requires Sound(p, s, at) && who < |s.pending| && p.openDelay >= 0
    ensures var (next, events) := Committed(s, who, at);
            Sound(p, next, at) && forall e | e in events :: Safe(p, e)
  {
    var pending := s.pending[who];
    assert InStep(p, s.epoch, at, pending);
    if pending.Admitting? {
      DayOf(at, s.epoch);
    } else if pending.Rolling? {
      DayOf(at, pending.epoch);
    }
  }

  lemma OneMoment(p: ClockPolicy, s: Clockwork, m: Moment)
    requires p.openDelay >= 0 && Honest(p, m) && Sound(p, s, m.trueUnix)
    ensures var (next, events) := Next(p, s, m);
            Sound(p, next, m.trueUnix) && forall e | e in events :: Safe(p, e)
  {
    match m.act {
      case Start(taken) => StartupExactly(p, taken);
      case Look =>
      case Decide(who, localNow, reading) =>
        if who < |s.pending| && s.pending[who].Looked? {
          assert InStep(p, s.epoch, m.trueUnix, s.pending[who]);
          DecidedInStep(p, s.epoch, s.pending[who].epoch, m);
        }
      case Commit(who) =>
        if who < |s.pending| {
          CommittedSafe(p, s, who, m.trueUnix);
        }
    }
  }

  /** From this epoch on, days never go back, and each is opened once. */
  predicate Rises(events: seq<Event>, epoch: int) {
    && (forall i | 0 <= i < |events| ::
          epoch <= events[i].epoch && (!events[i].Admits? ==> epoch < events[i].epoch))
    && (forall i, j | 0 <= i < j < |events| ::
          events[i].epoch <= events[j].epoch && (!events[j].Admits? ==> events[i].epoch < events[j].epoch))
  }

  lemma RiseOn(first: Event, rest: seq<Event>, epoch: int)
    requires epoch <= first.epoch && (!first.Admits? ==> epoch < first.epoch) && Rises(rest, first.epoch)
    ensures Rises([first] + rest, epoch)
  {
    var events := [first] + rest;
    forall i | 0 < i < |events| ensures events[i] == rest[i - 1] {}
  }

  lemma RiseLater(events: seq<Event>, epoch: int, later: int)
    requires epoch <= later && Rises(events, later)
    ensures Rises(events, epoch)
  {
  }

  lemma OneRise(p: ClockPolicy, s: Clockwork, m: Moment)
    ensures var (next, events) := Next(p, s, m);
            && s.epoch <= next.epoch
            && (events == [] || (|events| == 1 && events[0].epoch == next.epoch))
            && (events != [] && !events[0].Admits? ==> s.epoch < next.epoch)
  {
  }

  /** Through any interleaving at all, with honest clocks or not, what is committed never goes
      back a day, and each day is opened once: a reservation is for the day the ledger is
      in when it is made, however long ago its request looked. */
  lemma {:induction false} DaysRise(p: ClockPolicy, s: Clockwork, moments: seq<Moment>)
    ensures Rises(Through(p, s, moments), s.epoch)
    decreases |moments|
  {
    if |moments| != 0 {
      var (next, first) := Next(p, s, moments[0]);
      var rest := Through(p, next, moments[1..]);
      OneRise(p, s, moments[0]);
      DaysRise(p, next, moments[1..]);
      if first == [] {
        RiseLater(rest, s.epoch, next.epoch);
        assert first + rest == rest;
      } else {
        RiseOn(first[0], rest, s.epoch);
        assert first == [first[0]];
      }
    }
  }

  /** Epoch safety. From an epoch that has begun, through any interleaving of
      requests, clock loops and starts in which readings are within their stated
      error and starts not within it of midnight: no day is opened or admitted
      against before it begins, rollovers wait out the opening delay, and every
      admission that took less than its slack is for the true UTC day. */
  lemma {:induction false} EpochSafety(p: ClockPolicy, s: Clockwork, from: int, moments: seq<Moment>)
    requires p.uncertainty >= 0 && p.openDelay >= 0
    requires Sound(p, s, from) && Monotone(moments, from)
    requires forall m | m in moments :: Honest(p, m)
    ensures forall e | e in Through(p, s, moments) :: Safe(p, e)
    decreases |moments|
  {
    if |moments| != 0 {
      var m := moments[0];
      assert m in moments && forall later | later in moments[1..] :: later in moments;
      TimePasses(p, s, from, m.trueUnix);
      OneMoment(p, s, m);
      var (next, events) := Next(p, s, m);
      EpochSafety(p, next, m.trueUnix, moments[1..]);
    }
  }

  /** A new ledger is in epoch 0, and its first start settles the rest: the same
      over any number of lives of the process, with nothing taken as begun. */
  lemma EpochSafetyFromTheStart(p: ClockPolicy, moments: seq<Moment>, from: nat)
    requires p.uncertainty >= 0 && p.openDelay >= 0 && Monotone(moments, from)
    requires forall m | m in moments :: Honest(p, m)
    ensures forall e | e in Through(p, Clockwork(0, []), moments) :: Safe(p, e)
  {
    DayOf(from, 0);
    EpochSafety(p, Clockwork(0, []), from, moments);
  }

  // ---------------------------------------------------------------------
  // The two ways it fails.

  lemma ThroughTwo(p: ClockPolicy, s: Clockwork, a: Moment, b: Moment)
    ensures Through(p, s, [a, b]) == Next(p, s, a).1 + Next(p, Next(p, s, a).0, b).1
  {
    assert [a, b][1..] == [b] && [b][1..] == [];
    assert Through(p, Next(p, s, a).0, [b]) == Next(p, Next(p, s, a).0, b).1 + [];
  }

  lemma ThroughAnother(p: ClockPolicy, s: Clockwork, a: Moment, rest: seq<Moment>)
    ensures Through(p, s, [a] + rest) == Next(p, s, a).1 + Through(p, Next(p, s, a).0, rest)
  {
    assert ([a] + rest)[1..] == rest;
  }

  /** A reservation that is committed when its slack is used up is made in the
      epoch of yesterday, with readings that are exact: the window is computed a
      second and the uncertainty before midnight, and the reservation follows at
      midnight. */
  lemma LateCommit(p: ClockPolicy, day: int) returns (moments: seq<Moment>)
    requires p.uncertainty >= 0 && p.maxAge >= 0
    ensures var from := EndOf(day) - 1 - p.uncertainty;
            && Monotone(moments, from)
            && (forall m | m in moments :: Honest(p, m))
            && Through(p, Clockwork(day, []), moments) == [Admits(day, EndOf(day), p.uncertainty + 1, 1)]
            && EpochOf(EndOf(day)) == day + 1
  {
    var from := EndOf(day) - 1 - p.uncertainty;
    var look, decide := Moment(from, Look), Moment(from, Decide(0, 0, Some(Reading(from, 0))));
    var commit := Moment(EndOf(day), Commit(0));
    moments := [look] + [decide, commit];
    assert [decide, commit][1..] == [commit] && [commit][1..] == [] && moments[1..] == [decide, commit];
    assert Monotone([commit], from) && Monotone([decide, commit], from);
    ThroughAnother(p, Clockwork(day, []), look, [decide, commit]);
    ThroughTwo(p, Next(p, Clockwork(day, []), look).0, decide, commit);
    DayOf(EndOf(day), day + 1);
  }

  /** A reading one second ahead is enough to start in tomorrow and admit against
      it today. */
  lemma StartupCanBeEarly(p: ClockPolicy, day: int) returns (moments: seq<Moment>)
    requires 1 <= p.uncertainty < 86400 && p.maxAge >= 0
    ensures var midnight := day * 86400;
            && |moments| == 4 && moments[0] == Moment(midnight - 1, Start(Reading(midnight, 0)))
            && Possible(p, 0, Some(Reading(midnight, 0)), midnight - 1)
            && (forall k | 1 <= k < 4 :: moments[k].trueUnix == midnight - 1 && Honest(p, moments[k]))
            && Through(p, Clockwork(day - 1, []), moments) ==
               [Starts(day, midnight - 1), Admits(day, midnight - 1, 0, 86400 - p.uncertainty)]
            && EpochOf(midnight - 1) == day - 1
  {
    var midnight, reading := day * 86400, Reading(day * 86400, 0);
    var start, look := Moment(midnight - 1, Start(reading)), Moment(midnight - 1, Look);
    var decide, commit := Moment(midnight - 1, Decide(0, 0, Some(reading))), Moment(midnight - 1, Commit(0));
    DayOf(midnight, day);
    DayOf(midnight - 1, day);
    DayOf(midnight - 1, day - 1);
    moments := [start] + ([look] + [decide, commit]);
    ThroughAnother(p, Clockwork(day - 1, []), start, [look] + [decide, commit]);
    var open := Next(p, Clockwork(day - 1, []), start).0;
    ThroughAnother(p, open, look, [decide, commit]);
    ThroughTwo(p, Next(p, open, look).0, decide, commit);
  }
}
