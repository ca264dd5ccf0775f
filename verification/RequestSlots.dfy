/**
Counting requests for a provider whose allowance is in requests: a daily counter
and a sliding window of durable timestamps (`requests.rs`). The tables here are
one provider's rows; other providers' rows are never touched.
*/
module RequestSlots {
  import opened Results

  const I64_MAX := 0x7fff_ffff_ffff_ffff

  datatype Window = Window(maxInWindow: nat, seconds: int)

  datatype Count = Count(used: int, limit: int)

  /** `times` are the stored dispatch timestamps, oldest insertion first. */
  datatype Slots = Slots(counters: map<int, Count>, times: seq<int>)

  datatype Slot =
    | Granted(used: int, limit: int)
    | Exhausted(used: int, limit: int)
    | WindowFull(retryAfter: int)

  datatype SlotError = Overflow

  /** The timestamps at or after `start`. */
  function Since(times: seq<int>, start: int): seq<int> {
    if |times| == 0 then []
    else
      var before, at := Since(times[..|times| - 1], start), times[|times| - 1];
      if at >= start then before + [at] else before
  }

  /** `MIN(at)`. */
  function Oldest(times: seq<int>): (least: int)
    requires |times| > 0
    ensures least in times && forall t | t in times :: least <= t
  {
    if |times| == 1 then times[0]
    else
      assert times == times[..|times| - 1] + [times[|times| - 1]];
      var before, at := Oldest(times[..|times| - 1]), times[|times| - 1];
      if at < before then at else before
  }

  function UsedIn(s: Slots, epoch: int): int {
    if epoch in s.counters then s.counters[epoch].used else 0
  }

  function Take(s: Slots, epoch: int, limitPerDay: nat, window: Window, now: int): Result<(Slots, Slot), SlotError> {
    if limitPerDay > I64_MAX then Failure(Overflow)
    else
      var used := UsedIn(s, epoch);
      var counted := s.(counters := s.counters[epoch := Count(used, limitPerDay)]);
      if used >= limitPerDay then Success((counted, Exhausted(used, limitPerDay)))
      else if now - window.seconds < -I64_MAX - 1 || now - window.seconds > I64_MAX then Failure(Overflow)
      else
        var recent := Since(s.times, now - window.seconds);
        if |recent| >= window.maxInWindow then
          var retry := if |recent| == 0 then 1 else Oldest(recent) + window.seconds - now;
          Success((counted.(times := recent), WindowFull(if retry < 1 then 1 else retry)))
        else
          Success((Slots(counted.counters[epoch := Count(used + 1, limitPerDay)], recent + [now]),
                   Granted(used + 1, limitPerDay)))
  }

  class RequestCounter {
    var counters: map<int, Count>
    var times: seq<int>

    function State(): Slots
      reads this
    {
      Slots(counters, times)
    }

    constructor ()
      ensures State() == Slots(map[], [])
    {
      counters, times := map[], [];
    }

    /** Takes one slot, or changes no more than the limit and the pruning. */
    method TakeRequestSlot(epoch: int, limitPerDay: nat, window: Window, now: int)
      returns (r: Result<Slot, SlotError>)
      modifies this
      ensures match Take(old(State()), epoch, limitPerDay, window, now)
              case Failure(error) => r == Failure(error) && State() == old(State())
              case Success((after, slot)) => r == Success(slot) && State() == after
    {
      if limitPerDay > I64_MAX {
        return Failure(Overflow);
      }
      var used := UsedIn(State(), epoch);
      var counted := counters[epoch := Count(used, limitPerDay)];
      if used >= limitPerDay {
        counters := counted;
        return Success(Exhausted(used, limitPerDay));
      }
      var windowStart := now - window.seconds;
      if windowStart < -I64_MAX - 1 || windowStart > I64_MAX {
        return Failure(Overflow);
      }
      counters := counted;
      times := Since(times, windowStart);
      if |times| >= window.maxInWindow {
        var retry := 1;
        if |times| > 0 {
          retry := Oldest(times) + window.seconds - now;
        }
        return Success(WindowFull(if retry < 1 then 1 else retry));
      }
      counters := counters[epoch := Count(used + 1, limitPerDay)];
      times := times + [now];
      return Success(Granted(used + 1, limitPerDay));
    }
  }

  // ---------------------------------------------------------------------
  // Runs.

  datatype Call = Call(epoch: int, limit: nat, now: int)

  /** A grant, as a log that is never pruned would record it. */
  datatype Grant = Grant(epoch: int, at: int)

  function Times(log: seq<Grant>): (times: seq<int>)
    ensures |times| == |log| && forall i | 0 <= i < |log| :: times[i] == log[i].at
  {
    seq(|log|, i requires 0 <= i < |log| => log[i].at)
  }

  function Step(s: Slots, log: seq<Grant>, window: Window, c: Call): (Slots, seq<Grant>) {
    match Take(s, c.epoch, c.limit, window, c.now)
    case Failure(_) => (s, log)
    case Success((after, slot)) => (after, if slot.Granted? then log + [Grant(c.epoch, c.now)] else log)
  }

  function Serve(s: Slots, log: seq<Grant>, window: Window, calls: seq<Call>): (Slots, seq<Grant>)
    decreases |calls|
  {
    if |calls| == 0 then (s, log)
    else
      var (next, more) := Step(s, log, window, calls[0]);
      Serve(next, more, window, calls[1..])
  }

  predicate Monotone(calls: seq<Call>, now: int)
    decreases |calls|
  {
    |calls| == 0 || (now <= calls[0].now && Monotone(calls[1..], calls[0].now))
  }

  function GrantsIn(log: seq<Grant>, epoch: int): nat {
    if |log| == 0 then 0
    else GrantsIn(log[..|log| - 1], epoch) + if log[|log| - 1].epoch == epoch then 1 else 0
  }

  /** At the time of each grant, fewer than `maxInWindow` earlier ones were within
      the window. */
  predicate Spaced(times: seq<int>, window: Window) {
    forall i: nat | i < |times| :: RoomAt(times, window, i)
  }

  predicate RoomAt(times: seq<int>, window: Window, i: nat)
    requires i < |times|
  {
    |Since(times[..i], times[i] - window.seconds)| < window.maxInWindow
  }

  /** From `now` on the pruned table answers as the whole log would, the counters
      are the log's, and the log is spaced. */
  ghost predicate Faithful(s: Slots, log: seq<Grant>, window: Window, now: int) {
    && (forall start | start >= now - window.seconds :: Since(s.times, start) == Since(Times(log), start))
    && (forall epoch :: UsedIn(s, epoch) == GrantsIn(log, epoch))
    && Spaced(Times(log), window)
    && (forall i | 0 <= i < |log| :: log[i].at <= now)
  }

  lemma {:induction false} SinceTwice(times: seq<int>, early: int, late: int)
    requires early <= late
    ensures Since(Since(times, early), late) == Since(times, late)
  {
    if |times| != 0 {
      SinceTwice(times[..|times| - 1], early, late);
      var before := Since(times[..|times| - 1], early);
      assert (before + [times[|times| - 1]])[..|before|] == before;
    }
  }

  lemma SinceAppend(times: seq<int>, at: int, start: int)
    ensures Since(times + [at], start) == Since(times, start) + if at >= start then [at] else []
  {
    assert (times + [at])[..|times|] == times;
  }

  /** The pruned table, and with one more grant. */
  lemma PrunedAgrees(times: seq<int>, all: seq<int>, from: int, start: int, at: int)
    requires forall later | later >= from :: Since(times, later) == Since(all, later)
    requires from <= start
    ensures forall later | later >= start :: Since(Since(times, start), later) == Since(all, later)
    ensures forall later | later >= start :: Since(Since(times, start) + [at], later) == Since(all + [at], later)
  {
    forall later | later >= start
      ensures Since(Since(times, start), later) == Since(all, later)
      ensures Since(Since(times, start) + [at], later) == Since(all + [at], later)
    {
      SinceTwice(times, start, later);
      SinceAppend(Since(times, start), at, later);
      SinceAppend(all, at, later);
    }
  }

  lemma GrantsAppend(log: seq<Grant>, g: Grant)
    ensures forall epoch :: GrantsIn(log + [g], epoch) == GrantsIn(log, epoch) + if g.epoch == epoch then 1 else 0
  {
    assert (log + [g])[..|log|] == log;
  }

  lemma StepFaithful(s: Slots, log: seq<Grant>, window: Window, now: int, c: Call)
    requires Faithful(s, log, window, now) && now <= c.now
    ensures var (after, more) := Step(s, log, window, c); Faithful(after, more, window, c.now)
  {
    var (after, more) := Step(s, log, window, c);
    var start := c.now - window.seconds;
    PrunedAgrees(s.times, Times(log), now - window.seconds, start, c.now);
    if more != log {
      assert Times(more) == Times(log) + [c.now];
      assert Since(s.times, start) == Since(Times(log), start);
      GrantsAppend(log, Grant(c.epoch, c.now));
      SpacedOneMore(Times(log), c.now, window);
    }
  }

  lemma SpacedOneMore(times: seq<int>, at: int, window: Window)
    requires Spaced(times, window) && |Since(times, at - window.seconds)| < window.maxInWindow
    ensures Spaced(times + [at], window)
  {
    var all := times + [at];
    forall i: nat | i < |all| ensures RoomAt(all, window, i) {
      assert all[..i] == times[..i];
      if i < |times| {
        assert RoomAt(times, window, i);
      } else {
        assert all[..i] == times;
      }
    }
  }

  lemma {:induction false} ServeFaithful(s: Slots, log: seq<Grant>, window: Window, calls: seq<Call>, now: int)
    requires Faithful(s, log, window, now) && Monotone(calls, now)
    ensures var (after, more) := Serve(s, log, window, calls);
            Faithful(after, more, window, if |calls| == 0 then now else calls[|calls| - 1].now)
    decreases |calls|
  {
    if |calls| != 0 {
      StepFaithful(s, log, window, now, calls[0]);
      var (next, more) := Step(s, log, window, calls[0]);
      ServeFaithful(next, more, window, calls[1..], calls[0].now);
      if |calls| > 1 {
        assert calls[1..][|calls| - 2] == calls[|calls| - 1];
      }
    }
  }

  // ---------------------------------------------------------------------
  // The window.

  /** Grants in the closed interval of this length that begins at `lo`. */
  function Within(times: seq<int>, lo: int, length: int): nat {
    if |times| == 0 then 0
    else Within(times[..|times| - 1], lo, length) + if lo <= times[|times| - 1] <= lo + length then 1 else 0
  }

  lemma {:induction false} WithinSince(times: seq<int>, lo: int, length: int, start: int)
    requires start <= lo
    ensures Within(times, lo, length) <= |Since(times, start)|
  {
    if |times| != 0 {
      WithinSince(times[..|times| - 1], lo, length, start);
    }
  }

  lemma {:induction false} SpacedBounds(times: seq<int>, window: Window, lo: int)
    requires Spaced(times, window)
    ensures Within(times, lo, window.seconds) <= window.maxInWindow
  {
    if |times| != 0 {
      var before, at := times[..|times| - 1], times[|times| - 1];
      forall i: nat | i < |before| ensures RoomAt(before, window, i) {
        assert before[..i] == times[..i] && RoomAt(times, window, i);
      }
      assert RoomAt(times, window, |before|);
      SpacedBounds(before, window, lo);
      if lo <= at <= lo + window.seconds {
        WithinSince(before, lo, window.seconds, at - window.seconds);
      }
    }
  }

  const NO_SLOTS := Slots(map[], [])

  /** Over any calls whose times do not go back: the pruned table counts every
      window as the unpruned log would; no closed interval as long as the window
      holds more than `maxInWindow` grants; and `used` is the number of grants of
      its epoch. */
  lemma SlidingWindow(window: Window, calls: seq<Call>, begin: int, now: int)
    requires Monotone(calls, begin) && begin <= now && (|calls| > 0 ==> calls[|calls| - 1].now <= now)
    ensures var (s, log) := Serve(NO_SLOTS, [], window, calls);
            && Since(s.times, now - window.seconds) == Since(Times(log), now - window.seconds)
            && (forall lo :: Within(Times(log), lo, window.seconds) <= window.maxInWindow)
            && (forall epoch :: UsedIn(s, epoch) == GrantsIn(log, epoch))
  {
    ServeFaithful(NO_SLOTS, [], window, calls, begin);
    var (s, log) := Serve(NO_SLOTS, [], window, calls);
    forall lo ensures Within(Times(log), lo, window.seconds) <= window.maxInWindow {
      SpacedBounds(Times(log), window, lo);
    }
  }

  predicate FixedLimit(calls: seq<Call>, epoch: int, limit: nat) {
    forall c | c in calls && c.epoch == epoch :: c.limit <= limit
  }

  /** No more grants in an epoch than its limit, when no call raises it. */
  lemma {:induction false} NeverOverLimit(s: Slots, log: seq<Grant>, window: Window, calls: seq<Call>,
      epoch: int, limit: nat)
    requires FixedLimit(calls, epoch, limit) && UsedIn(s, epoch) <= limit
    ensures UsedIn(Serve(s, log, window, calls).0, epoch) <= limit
    decreases |calls|
  {
    if |calls| != 0 {
      assert calls[0] in calls && forall c | c in calls[1..] :: c in calls;
      var (next, more) := Step(s, log, window, calls[0]);
      NeverOverLimit(next, more, window, calls[1..], epoch, limit);
    }
  }

  // ---------------------------------------------------------------------
  // The hint.

  /** Whether the window alone would let a request through at `t`. */
  predicate WindowAdmits(s: Slots, window: Window, t: int) {
    |Since(s.times, t - window.seconds)| < window.maxInWindow
  }

  lemma {:induction false} SinceAll(times: seq<int>, start: int)
    ensures |Since(times, start)| <= |times|
    ensures |Since(times, start)| == |times| <==> forall t | t in times :: t >= start
  {
    if |times| != 0 {
      var before, at := times[..|times| - 1], times[|times| - 1];
      assert times == before + [at];
      SinceAll(before, start);
      assert at in times && forall t | t in before :: t in times;
      assert forall t | t in times :: t in before || t == at;
    }
  }

  /** A full window admits again one second after its oldest entry is exactly the
      window's length old. */
  lemma FullUntil(s: Slots, window: Window)
    requires |s.times| == window.maxInWindow > 0
    ensures forall t :: WindowAdmits(s, window, t) <==> t >= Oldest(s.times) + window.seconds + 1
  {
    forall t ensures WindowAdmits(s, window, t) <==> t >= Oldest(s.times) + window.seconds + 1 {
      SinceAll(s.times, t - window.seconds);
    }
  }

  lemma HintIs(s: Slots, epoch: int, limit: nat, window: Window, now: int)
    requires Take(s, epoch, limit, window, now).Success? && Take(s, epoch, limit, window, now).value.1.WindowFull?
    ensures var (after, slot) := Take(s, epoch, limit, window, now).value;
            && after.times == Since(s.times, now - window.seconds) && |after.times| >= window.maxInWindow
            && (|after.times| > 0 ==>
                  slot.retryAfter == (var r := Oldest(after.times) + window.seconds - now; if r < 1 then 1 else r))
  {
  }

  /** A timestamp still counts when exactly the window's length old, so the hint
      is one second short, unless the oldest one is already that old. It never
      overshoots: with no grant in between, the window admits at `free` and not
      before, and the hinted time is `free` or the second before it. */
  lemma HintAtMostOneShort(s: Slots, epoch: int, limit: nat, window: Window, now: int) returns (free: int)
    requires window.maxInWindow > 0 && window.seconds >= 0
    requires |Since(s.times, now - window.seconds)| <= window.maxInWindow
    requires Take(s, epoch, limit, window, now).Success? && Take(s, epoch, limit, window, now).value.1.WindowFull?
    ensures var (after, slot) := Take(s, epoch, limit, window, now).value;
            && (forall t | t >= now :: WindowAdmits(after, window, t) <==> t >= free)
            && free - 1 <= now + slot.retryAfter <= free
            && |after.times| > 0 && (now + slot.retryAfter == free <==> Oldest(after.times) == now - window.seconds)
  {
    HintIs(s, epoch, limit, window, now);
    var after := Take(s, epoch, limit, window, now).value.0;
    assert |after.times| == window.maxInWindow;
    OldestIsRecent(s.times, now - window.seconds);
    FullUntil(after, window);
    free := Oldest(after.times) + window.seconds + 1;
  }

  /** A short hint: with one slot in ten seconds and a grant at 0, a request at 3 is
      told to come back in 7, finds the window still full at 10, and gets in at 11. */
  lemma AShortHint(epoch: int, limit: nat)
    requires 2 <= limit <= I64_MAX
    ensures var window := Window(1, 10);
            var (first, granted) := Take(Slots(map[], []), epoch, limit, window, 0).value;
            var (second, hint) := Take(first, epoch, limit, window, 3).value;
            var (third, again) := Take(second, epoch, limit, window, 10).value;
            && granted == Granted(1, limit) && hint == WindowFull(7) && again.WindowFull?
            && Take(third, epoch, limit, window, 11).value.1 == Granted(2, limit)
  {
    forall start ensures Since([0], start) == if start <= 0 then [0] else [] {
      assert [0][..0] == [] && Since([], start) == [] && [] + [0] == [0];
    }
    assert forall start :: Since([], start) == [];
  }

  lemma OldestIsRecent(times: seq<int>, start: int)
    requires |Since(times, start)| > 0
    ensures Oldest(Since(times, start)) >= start
  {
    SinceTwice(times, start, start);
    SinceAll(Since(times, start), start);
  }

  lemma {:induction false} SinceIsWithin(times: seq<int>, lo: int, length: int)
    requires forall i | 0 <= i < |times| :: times[i] <= lo + length
    ensures |Since(times, lo)| == Within(times, lo, length)
  {
    if |times| != 0 {
      SinceIsWithin(times[..|times| - 1], lo, length);
    }
  }

  /** The same on every reachable table. */
  lemma HintOnRuns(window: Window, calls: seq<Call>, begin: int, epoch: int, limit: nat, now: int) returns (free: int)
    requires window.maxInWindow > 0 && window.seconds >= 0
    requires Monotone(calls, begin) && begin <= now && (|calls| > 0 ==> calls[|calls| - 1].now <= now)
    requires var s := Serve(NO_SLOTS, [], window, calls).0;
             Take(s, epoch, limit, window, now).Success? && Take(s, epoch, limit, window, now).value.1.WindowFull?
    ensures var s := Serve(NO_SLOTS, [], window, calls).0;
            var (after, slot) := Take(s, epoch, limit, window, now).value;
            && (forall t | t >= now :: WindowAdmits(after, window, t) <==> t >= free)
            && free - 1 <= now + slot.retryAfter <= free
  {
    NeverOverfull(window, calls, begin, now);
    free := HintAtMostOneShort(Serve(NO_SLOTS, [], window, calls).0, epoch, limit, window, now);
  }

  lemma NeverOverfull(window: Window, calls: seq<Call>, begin: int, now: int)
    requires Monotone(calls, begin) && begin <= now && (|calls| > 0 ==> calls[|calls| - 1].now <= now)
    ensures |Since(Serve(NO_SLOTS, [], window, calls).0.times, now - window.seconds)| <= window.maxInWindow
  {
    var (s, log) := Serve(NO_SLOTS, [], window, calls);
    ServeFaithful(NO_SLOTS, [], window, calls, begin);
    SinceIsWithin(Times(log), now - window.seconds, window.seconds);
    SpacedBounds(Times(log), window, now - window.seconds);
  }

  /** Both directions, on every reachable table: a slot is granted exactly when fewer
      than the limit were granted in the epoch and fewer than `maxInWindow` in the window
      that ends now; the day's limit is what is reported when both are reached. What is
      answered counts the grants there were, with this one. */
  lemma GrantedExactly(window: Window, calls: seq<Call>, begin: int, c: Call)
    requires Monotone(calls, begin) && begin <= c.now && (|calls| > 0 ==> calls[|calls| - 1].now <= c.now)
    requires c.limit <= I64_MAX && -I64_MAX - 1 <= c.now - window.seconds <= I64_MAX
    ensures var (s, log) := Serve(NO_SLOTS, [], window, calls);
            var used, recent := GrantsIn(log, c.epoch), Within(Times(log), c.now - window.seconds, window.seconds);
            var r := Take(s, c.epoch, c.limit, window, c.now);
            && r.Success?
            && (used >= c.limit ==> r.value.1 == Exhausted(used, c.limit))
            && (used < c.limit && recent >= window.maxInWindow ==> r.value.1.WindowFull?)
            && (used < c.limit && recent < window.maxInWindow ==> r.value.1 == Granted(used + 1, c.limit))
            && r.value.0.counters ==
               s.counters[c.epoch := Count(if r.value.1.Granted? then used + 1 else used, c.limit)]
            && (r.value.1.Granted? ==> Serve(NO_SLOTS, [], window, calls + [c]).1 == log + [Grant(c.epoch, c.now)])
            && (!r.value.1.Granted? ==> Serve(NO_SLOTS, [], window, calls + [c]).1 == log)
  {
    var (s, log) := Serve(NO_SLOTS, [], window, calls);
    ServeFaithful(NO_SLOTS, [], window, calls, begin);
    SinceIsWithin(Times(log), c.now - window.seconds, window.seconds);
    ServeOneMore(NO_SLOTS, [], window, calls, c);
  }

  lemma {:induction false} ServeOneMore(s: Slots, log: seq<Grant>, window: Window, calls: seq<Call>, c: Call)
    ensures var (last, all) := Serve(s, log, window, calls);
            Serve(s, log, window, calls + [c]) == Step(last, all, window, c)
    decreases |calls|
  {
    if |calls| == 0 {
      assert calls + [c] == [c] && [c][1..] == [];
    } else {
      assert (calls + [c])[0] == calls[0] && (calls + [c])[1..] == calls[1..] + [c];
      var (next, more) := Step(s, log, window, calls[0]);
      ServeOneMore(next, more, window, calls[1..], c);
    }
  }
}
