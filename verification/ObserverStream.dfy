/** Which events of a stream the observer reports, and when it fails, by what the events say. */
module ObserverStream {
  import opened Results
  import opened Json
  import opened JsonMembers
  import opened Sse
  import opened SsePackets
  import opened Utf8
  import SseStream
  import opened Observer
  import opened ObserverContents

  /** Event `i` announces this. */
  ghost predicate Says(d: Decoder, events: seq<Event>, i: int, s: Summary) {
    0 <= i < |events| && Announces(d, events[i], s)
  }

  /** This response, after those: the same one, and not ended in two ways. */
  ghost predicate Follows(d: Decoder, before: seq<Event>, s: Summary) {
    forall i, t | Says(d, before, i, t) :: t.id == s.id && (Ended(t) && Ended(s) ==> t == s)
  }

  /** An event the observer can take: not of the lifecycle, or readable and in line with
      what came before. */
  ghost predicate Fitting(d: Decoder, before: seq<Event>, e: Event) {
    IsLifecycle(d, e) ==> exists s :: Announces(d, e, s) && Follows(d, before, s)
  }

  ghost predicate Undisturbed(d: Decoder, events: seq<Event>) {
    forall j | 0 <= j < |events| :: Fitting(d, events[..j], events[j])
  }

  lemma UndisturbedOneMore(d: Decoder, before: seq<Event>, e: Event)
    ensures Undisturbed(d, before + [e]) <==> Undisturbed(d, before) && Fitting(d, before, e)
  {
    var all := before + [e];
    forall j | 0 <= j < |before| ensures all[..j] == before[..j] && all[j] == before[j] {}
    assert all[..|before|] == before && all[|before|] == e;
    if Undisturbed(d, all) {
      assert Fitting(d, all[..|before|], all[|before|]);
      forall j | 0 <= j < |before| ensures Fitting(d, before[..j], before[j]) {
        assert Fitting(d, all[..j], all[j]);
      }
    }
  }

  lemma SaysOneMore(d: Decoder, before: seq<Event>, e: Event, s: Summary)
    ensures (exists i :: Says(d, before + [e], i, s)) <==> (exists i :: Says(d, before, i, s)) || Announces(d, e, s)
  {
    var all := before + [e];
    if i :| Says(d, all, i, s) {
      if i < |before| {
        assert Says(d, before, i, s);
      }
    }
    if i :| Says(d, before, i, s) {
      assert Says(d, all, i, s);
    }
    if Announces(d, e, s) {
      assert Says(d, all, |before|, s);
    }
  }

  lemma SaysOne(d: Decoder, e: Event, s: Summary, t: Summary)
    requires Announces(d, e, s) && Announces(d, e, t)
    ensures s == t
  {
    ReadableSays(d, e, s);
    ReadableSays(d, e, t);
  }

  ghost predicate Told(d: Decoder, events: seq<Event>, s: Summary) {
    exists i :: Says(d, events, i, s)
  }

  lemma ToldOneMore(d: Decoder, before: seq<Event>, e: Event)
    ensures forall s :: Told(d, before + [e], s) <==> Told(d, before, s) || Announces(d, e, s)
  {
    forall s ensures Told(d, before + [e], s) <==> Told(d, before, s) || Announces(d, e, s) {
      SaysOneMore(d, before, e, s);
    }
  }

  lemma FollowsTold(d: Decoder, before: seq<Event>, s: Summary)
    ensures Follows(d, before, s) <==>
            forall t | Told(d, before, t) :: t.id == s.id && (Ended(t) && Ended(s) ==> t == s)
  {
    if Follows(d, before, s) {
      forall t | Told(d, before, t) ensures t.id == s.id && (Ended(t) && Ended(s) ==> t == s) {
        var i :| Says(d, before, i, t);
      }
    }
    forall i, t | Says(d, before, i, t) ensures Told(d, before, t) {}
  }

  /** The id that all the events tell, if any does. */
  ghost predicate KnowsId(d: Decoder, events: seq<Event>, id: Option<string>) {
    match id
    case None => forall s :: !Told(d, events, s)
    case Some(text) => (exists s :: Told(d, events, s)) && forall s | Told(d, events, s) :: s.id == text
  }

  /** The end that any of them tells. */
  ghost predicate KnowsEnd(d: Decoder, events: seq<Event>, end: Option<Summary>) {
    match end
    case None => forall s | Told(d, events, s) :: !Ended(s)
    case Some(t) => Told(d, events, t) && Ended(t) && forall s | Told(d, events, s) && Ended(s) :: s == t
  }

  ghost predicate Knows(d: Decoder, events: seq<Event>, k: Known) {
    KnowsId(d, events, k.responseId) && KnowsEnd(d, events, k.terminal)
  }

  lemma KnownFits(d: Decoder, before: seq<Event>, k: Known, s: Summary)
    requires Knows(d, before, k)
    ensures Follows(d, before, s) <==>
              && (k.responseId.Some? ==> k.responseId.value == s.id)
              && (k.terminal.Some? && Ended(s) ==> k.terminal.value == s)
  {
    FollowsTold(d, before, s);
    if k.responseId.Some? {
      var t :| Told(d, before, t);
    }
  }

  lemma SameId(d: Decoder, before: seq<Event>, after: seq<Event>, id: Option<string>)
    requires forall t :: Told(d, after, t) <==> Told(d, before, t)
    requires KnowsId(d, before, id)
    ensures KnowsId(d, after, id) == true
  {
    if id.Some? {
      var s :| Told(d, before, s);
      assert Told(d, after, s);
    }
  }

  lemma SameEnd(d: Decoder, before: seq<Event>, after: seq<Event>, end: Option<Summary>)
    requires forall t :: Told(d, after, t) <==> Told(d, before, t)
    requires KnowsEnd(d, before, end)
    ensures KnowsEnd(d, after, end) == true
  {
  }

  lemma SameTold(d: Decoder, before: seq<Event>, after: seq<Event>, k: Known)
    requires forall t :: Told(d, after, t) <==> Told(d, before, t)
    requires Knows(d, before, k)
    ensures Knows(d, after, k)
  {
    SameId(d, before, after, k.responseId);
    SameEnd(d, before, after, k.terminal);
  }

  lemma Ignored(d: Decoder, before: seq<Event>, k: Known, e: Event)
    requires Knows(d, before, k) && k.failure.None? && !IsLifecycle(d, e)
    ensures Fitting(d, before, e) && Knows(d, before + [e], k) && Observe(d, k, e).0 == k
  {
    ToldOneMore(d, before, e);
    assert forall s :: !Announces(d, e, s);
    SameTold(d, before, before + [e], k);
    if IsError(d, e) {
      ErrorObserved(d, k, e);
    } else {
      OtherIgnored(d, k, e);
    }
  }

  lemma FittingIs(d: Decoder, before: seq<Event>, e: Event, s: Summary)
    requires Announces(d, e, s)
    ensures Fitting(d, before, e) <==> Follows(d, before, s)
  {
    if Fitting(d, before, e) {
      var t :| Announces(d, e, t) && Follows(d, before, t);
      SaysOne(d, e, s, t);
    }
  }

  lemma OnlyTells(d: Decoder, before: seq<Event>, e: Event, s: Summary)
    requires Announces(d, e, s)
    ensures forall t :: Told(d, before + [e], t) <==> Told(d, before, t) || t == s
  {
    ToldOneMore(d, before, e);
    forall t ensures Announces(d, e, t) <==> t == s {
      if Announces(d, e, t) {
        SaysOne(d, e, s, t);
      }
    }
  }

  lemma LearnsId(d: Decoder, before: seq<Event>, after: seq<Event>, id: Option<string>, s: Summary)
    requires forall t :: Told(d, after, t) <==> Told(d, before, t) || t == s
    requires KnowsId(d, before, id) && (id.Some? ==> id.value == s.id)
    ensures KnowsId(d, after, Some(s.id))
  {
    assert Told(d, after, s);
  }

  lemma LearnsEnd(d: Decoder, before: seq<Event>, after: seq<Event>, end: Option<Summary>, s: Summary)
    requires forall t :: Told(d, after, t) <==> Told(d, before, t) || t == s
    requires KnowsEnd(d, before, end) && (end.Some? && Ended(s) ==> end.value == s)
    ensures KnowsEnd(d, after, if Ended(s) then Some(s) else end)
  {
    assert Told(d, after, s);
  }

  lemma Learned(d: Decoder, before: seq<Event>, k: Known, e: Event, s: Summary)
    requires Knows(d, before, k) && k.failure.None? && Announces(d, e, s)
    ensures Observe(d, k, e).0.failure.None? <==> Follows(d, before, s)
    ensures Follows(d, before, s) ==> Knows(d, before + [e], Observe(d, k, e).0)
  {
    KnownFits(d, before, k, s);
    LearnedIs(d, k, e, s);
    if Follows(d, before, s) {
      OnlyTells(d, before, e, s);
      LearnsId(d, before, before + [e], k.responseId, s);
      LearnsEnd(d, before, before + [e], k.terminal, s);
    }
  }

  /** What the observer then knows. */
  lemma LearnedIs(d: Decoder, k: Known, e: Event, s: Summary)
    requires k.failure.None? && Announces(d, e, s)
    ensures var next := Observe(d, k, e).0;
            var fits := (k.responseId.Some? ==> k.responseId.value == s.id)
              && (k.terminal.Some? && Ended(s) ==> k.terminal.value == s);
            && (next.failure.None? <==> fits)
            && (fits ==> next.responseId == Some(s.id) && next.terminal == if Ended(s) then Some(s) else k.terminal)
  {
    AnnouncedLearned(d, k, e, s);
  }

  lemma StepKnows(d: Decoder, before: seq<Event>, k: Known, e: Event)
    requires Knows(d, before, k) && k.failure.None?
    ensures Observe(d, k, e).0.failure.None? <==> Fitting(d, before, e)
    ensures Fitting(d, before, e) ==> Knows(d, before + [e], Observe(d, k, e).0)
  {
    if !IsLifecycle(d, e) {
      Ignored(d, before, k, e);
    } else if exists s :: Announces(d, e, s) {
      var s :| Announces(d, e, s);
      Learned(d, before, k, e, s);
      FittingIs(d, before, e, s);
    } else {
      UnreadableFails(d, k, e);
    }
  }

  /** One more event. */
  lemma ObserveOneMore(d: Decoder, before: seq<Event>, e: Event)
    ensures var (k, out) := ObserveAll(d, UNKNOWN, before);
            ObserveAll(d, UNKNOWN, before + [e]) ==
            if k.failure.Some? then (k, out) else (Observe(d, k, e).0, out + Observe(d, k, e).1)
  {
    var (k, out) := ObserveAll(d, UNKNOWN, before);
    ReactJoins(Reacting(d), UNKNOWN, before, [e]);
    assert [e][1..] == [];
    var (next, more) := Reacting(d)(k, e);
    assert React(Reacting(d), k, [e]) == (next, more + []);
    assert more + [] == more && out + [] == out;
  }

  /** The observer fails exactly when some event does not fit, and until then knows what
      the events told. */
  lemma {:induction false} FailsExactly(d: Decoder, events: seq<Event>)
    ensures var k := ObserveAll(d, UNKNOWN, events).0;
            (k.failure.None? <==> Undisturbed(d, events)) && (Undisturbed(d, events) ==> Knows(d, events, k))
    decreases |events|
  {
    if |events| != 0 {
      var before, e := events[..|events| - 1], events[|events| - 1];
      assert events == before + [e];
      FailsExactly(d, before);
      ObserveOneMore(d, before, e);
      UndisturbedOneMore(d, before, e);
      var k := ObserveAll(d, UNKNOWN, before).0;
      if k.failure.None? {
        StepKnows(d, before, k, e);
      }
    } else {
      assert forall s :: !Told(d, events, s);
    }
  }

  // ---------------------------------------------------------------------
  // What is reported.

  /** Event `i` says this, and nothing up to it has failed the observer. */
  ghost predicate SaysInTime(d: Decoder, events: seq<Event>, i: int, s: Summary) {
    Says(d, events, i, s) && Undisturbed(d, events[..i + 1])
  }

  ghost predicate ErrsInTime(d: Decoder, events: seq<Event>, i: int, code: Option<string>, message: Option<string>) {
    && 0 <= i < |events| && IsError(d, events[i]) && Undisturbed(d, events[..i])
    && var v := if d.json(events[i].data).Some? then d.json(events[i].data).value else Null;
       TextAt(v, "code", code) && TextAt(v, "message", message)
  }

  ghost predicate TellsInTime(d: Decoder, events: seq<Event>, s: Summary) {
    exists i :: SaysInTime(d, events, i, s)
  }

  ghost predicate ErrorInTime(d: Decoder, events: seq<Event>, code: Option<string>, message: Option<string>) {
    exists i :: ErrsInTime(d, events, i, code, message)
  }

  /** What an observation rests on. */
  ghost predicate Grounded(d: Decoder, events: seq<Event>, o: Observation) {
    match o
    case ResponseId(id) => exists s :: TellsInTime(d, events, s) && s.id == id
    case Terminal(s) => Ended(s) && TellsInTime(d, events, s)
    case StreamError(code, message) => ErrorInTime(d, events, code, message)
  }

  lemma TellsOneMore(d: Decoder, before: seq<Event>, e: Event, s: Summary)
    ensures TellsInTime(d, before + [e], s) <==>
            TellsInTime(d, before, s) || (Announces(d, e, s) && Undisturbed(d, before + [e]))
  {
    var all := before + [e];
    assert all[..|all|] == all;
    forall i | 0 <= i < |before| ensures SaysInTime(d, all, i, s) <==> SaysInTime(d, before, i, s) {
      assert all[..i + 1] == before[..i + 1];
    }
    if Announces(d, e, s) && Undisturbed(d, all) {
      assert SaysInTime(d, all, |before|, s);
    }
    if i :| SaysInTime(d, all, i, s) {
      assert i < |before| ==> SaysInTime(d, before, i, s);
    }
    if i :| SaysInTime(d, before, i, s) {
      assert SaysInTime(d, all, i, s);
    }
  }

  lemma ErrsOneMore(d: Decoder, before: seq<Event>, e: Event, code: Option<string>, message: Option<string>)
    ensures ErrorInTime(d, before + [e], code, message) <==>
            ErrorInTime(d, before, code, message) || ErrsInTime(d, before + [e], |before|, code, message)
  {
    var all := before + [e];
    forall i | 0 <= i < |before|
      ensures ErrsInTime(d, all, i, code, message) <==> ErrsInTime(d, before, i, code, message)
    {
      assert all[..i] == before[..i];
    }
    if i :| ErrsInTime(d, all, i, code, message) {
      assert i < |before| ==> ErrsInTime(d, before, i, code, message);
    }
    if i :| ErrsInTime(d, before, i, code, message) {
      assert ErrsInTime(d, all, i, code, message);
    }
  }

  // ---------------------------------------------------------------------
  // Each kind of observation.

  lemma TellsWithin(d: Decoder, events: seq<Event>, s: Summary)
    requires TellsInTime(d, events, s)
    ensures Told(d, events, s)
  {
    var i :| SaysInTime(d, events, i, s);
    assert Says(d, events, i, s);
  }

  lemma ToldInTime(d: Decoder, events: seq<Event>, s: Summary)
    requires Undisturbed(d, events) && Told(d, events, s)
    ensures TellsInTime(d, events, s)
  {
    var i :| Says(d, events, i, s);
    UndisturbedPrefix(d, events, i + 1);
    assert SaysInTime(d, events, i, s);
  }

  lemma UndisturbedPrefix(d: Decoder, events: seq<Event>, n: nat)
    requires Undisturbed(d, events) && n <= |events|
    ensures Undisturbed(d, events[..n])
  {
    forall j | 0 <= j < n ensures Fitting(d, events[..n][..j], events[..n][j]) {
      assert events[..n][..j] == events[..j] && Fitting(d, events[..j], events[j]);
    }
  }

  /** What a fitting announcement adds. */
  lemma LearnedAdds(d: Decoder, k: Known, e: Event, s: Summary)
    requires k.failure.None? && Announces(d, e, s)
    ensures var out := Observe(d, k, e).1;
            && (forall id :: ResponseId(id) in out <==> id == s.id && k.responseId.None?)
            && (forall t :: Terminal(t) in out <==>
                  && t == s && Ended(s) && k.terminal.None? && (k.responseId.Some? ==> k.responseId.value == s.id))
            && (forall code, message :: StreamError(code, message) !in out)
  {
    AnnouncedLearned(d, k, e, s);
  }

  /** The terminal: reported exactly for a summary some event announces, with one of the
      four final statuses, before anything fails the observer. */
  lemma {:induction false} TerminalExactly(d: Decoder, events: seq<Event>, t: Summary)
    ensures Terminal(t) in ObserveAll(d, UNKNOWN, events).1 <==> Ended(t) && TellsInTime(d, events, t)
    decreases |events|
  {
    if |events| != 0 {
      var before, e := events[..|events| - 1], events[|events| - 1];
      assert events == before + [e];
      TerminalExactly(d, before, t);
      ObserveOneMore(d, before, e);
      TellsOneMore(d, before, e, t);
      FailsExactly(d, before);
      FailsExactly(d, events);
      TerminalStep(d, before, ObserveAll(d, UNKNOWN, before).0, e, t);
    }
  }

  lemma TerminalStep(d: Decoder, before: seq<Event>, k: Known, e: Event, t: Summary)
    requires k.failure.None? <==> Undisturbed(d, before)
    requires Undisturbed(d, before) ==> Knows(d, before, k)
    ensures k.failure.None? ==>
              (Terminal(t) in Observe(d, k, e).1 ==> Ended(t) && Announces(d, e, t) && Undisturbed(d, before + [e]))
    ensures Ended(t) && Announces(d, e, t) && Undisturbed(d, before + [e]) ==>
              k.failure.None? && (Terminal(t) in Observe(d, k, e).1 || TellsInTime(d, before, t))
  {
    UndisturbedOneMore(d, before, e);
    if k.failure.None? {
      if exists s :: Announces(d, e, s) {
        var s :| Announces(d, e, s);
        if Announces(d, e, t) {
          SaysOne(d, e, s, t);
        }
        LearnedAdds(d, k, e, s);
        KnownFits(d, before, k, s);
        FittingIs(d, before, e, s);
        if k.terminal.Some? && Ended(t) && s == t && Follows(d, before, s) {
          ToldInTime(d, before, t);
        }
      } else {
        SilentAdds(d, k, e);
      }
    }
  }

  /** An event that announces nothing reports at most an error. */
  lemma SilentAdds(d: Decoder, k: Known, e: Event)
    requires forall s :: !Announces(d, e, s)
    ensures forall o | o in Observe(d, k, e).1 :: o.StreamError? && IsError(d, e)
  {
    if IsLifecycle(d, e) {
      UnreadableFails(d, k, e);
    } else if IsError(d, e) {
      ErrorObserved(d, k, e);
    } else {
      OtherIgnored(d, k, e);
    }
  }

  /** The response id: reported exactly when some event announces it in time. */
  lemma {:induction false} ResponseIdExactly(d: Decoder, events: seq<Event>, id: string)
    ensures ResponseId(id) in ObserveAll(d, UNKNOWN, events).1 <==>
            exists s :: TellsInTime(d, events, s) && s.id == id
    decreases |events|
  {
    if |events| != 0 {
      var before, e := events[..|events| - 1], events[|events| - 1];
      assert events == before + [e];
      ResponseIdExactly(d, before, id);
      ObserveOneMore(d, before, e);
      forall s ensures TellsInTime(d, events, s) <==>
        TellsInTime(d, before, s) || (Announces(d, e, s) && Undisturbed(d, events))
      {
        TellsOneMore(d, before, e, s);
      }
      FailsExactly(d, before);
      ResponseIdStep(d, before, ObserveAll(d, UNKNOWN, before).0, e, id);
    } else {
      forall s ensures !TellsInTime(d, events, s) {
        assert forall i :: !SaysInTime(d, events, i, s);
      }
    }
  }

  lemma ResponseIdStep(d: Decoder, before: seq<Event>, k: Known, e: Event, id: string)
    requires k.failure.None? <==> Undisturbed(d, before)
    requires Undisturbed(d, before) ==> Knows(d, before, k)
    ensures k.failure.None? && ResponseId(id) in Observe(d, k, e).1 ==>
              exists s :: Announces(d, e, s) && s.id == id && Undisturbed(d, before + [e])
    ensures forall s | Announces(d, e, s) && s.id == id && Undisturbed(d, before + [e]) ::
              k.failure.None?
              && (ResponseId(id) in Observe(d, k, e).1 || exists t :: TellsInTime(d, before, t) && t.id == id)
  {
    UndisturbedOneMore(d, before, e);
    if k.failure.None? {
      if exists s :: Announces(d, e, s) {
        var s :| Announces(d, e, s);
        forall t | Announces(d, e, t) ensures t == s {
          SaysOne(d, e, s, t);
        }
        LearnedAdds(d, k, e, s);
        FittingIs(d, before, e, s);
        KnownFits(d, before, k, s);
        if k.responseId.None? {
          NothingEnded(d, before, k);
        } else {
          var t :| Told(d, before, t);
          ToldInTime(d, before, t);
        }
      } else {
        SilentAdds(d, k, e);
      }
    }
  }

  lemma NothingEnded(d: Decoder, before: seq<Event>, k: Known)
    requires Knows(d, before, k) && k.responseId.None?
    ensures k.terminal.None?
  {
  }

  /** Errors: reported exactly with the code and message of the events named `error`
      that come before anything fails the observer. */
  lemma {:induction false} ErrorsExactly(d: Decoder, events: seq<Event>, code: Option<string>, message: Option<string>)
    ensures StreamError(code, message) in ObserveAll(d, UNKNOWN, events).1 <==> ErrorInTime(d, events, code, message)
    decreases |events|
  {
    if |events| != 0 {
      var before, e := events[..|events| - 1], events[|events| - 1];
      assert events == before + [e] && events[..|before|] == before;
      ErrorsExactly(d, before, code, message);
      ObserveOneMore(d, before, e);
      ErrsOneMore(d, before, e, code, message);
      FailsExactly(d, before);
      if Undisturbed(d, before) {
        ErrorStep(d, ObserveAll(d, UNKNOWN, before).0, e, code, message);
      }
    } else {
      assert forall i :: !ErrsInTime(d, events, i, code, message);
    }
  }

  lemma ErrorStep(d: Decoder, k: Known, e: Event, code: Option<string>, message: Option<string>)
    requires k.failure.None?
    ensures StreamError(code, message) in Observe(d, k, e).1 <==>
            && IsError(d, e)
            && var v := if d.json(e.data).Some? then d.json(e.data).value else Null;
               TextAt(v, "code", code) && TextAt(v, "message", message)
  {
    if IsError(d, e) {
      ErrorObserved(d, k, e);
      var v := if d.json(e.data).Some? then d.json(e.data).value else Null;
      OneText(v, "code");
      OneText(v, "message");
    } else if exists s :: Announces(d, e, s) {
      var s :| Announces(d, e, s);
      LearnedAdds(d, k, e, s);
    } else {
      SilentAdds(d, k, e);
    }
  }

  lemma OneText(v: Json, key: string)
    ensures forall t, u | TextAt(v, key, t) && TextAt(v, key, u) :: t == u
  {
    forall t, u | TextAt(v, key, t) && TextAt(v, key, u) ensures t == u {
      TextIs(v, key, t);
      TextIs(v, key, u);
    }
  }

  // ---------------------------------------------------------------------
  // How it fails, and the stream in packets.

  /** Why the first event that does not fit fails the observer. */
  lemma FailsAs(d: Decoder, before: seq<Event>, e: Event)
    requires Undisturbed(d, before) && !Fitting(d, before, e)
    ensures var failure := ObserveAll(d, UNKNOWN, before + [e]).0.failure;
            && ((forall s :: !Announces(d, e, s)) ==> failure == Some(MalformedLifecycleEvent))
            && (forall s | Announces(d, e, s) ::
                  failure == Some(if exists t :: Told(d, before, t) && t.id != s.id then ConflictingResponseIds
                                  else ConflictingTerminals))
  {
    FailsExactly(d, before);
    ObserveOneMore(d, before, e);
    var k := ObserveAll(d, UNKNOWN, before).0;
    if s :| Announces(d, e, s) {
      forall t | Announces(d, e, t) ensures t == s {
        SaysOne(d, e, s, t);
      }
      AnnouncedLearned(d, k, e, s);
      FittingIs(d, before, e, s);
      KnownFits(d, before, k, s);
      if k.responseId.Some? {
        var t :| Told(d, before, t);
      }
    } else {
      UnreadableFails(d, k, e);
    }
  }

  lemma ObservationExactly(d: Decoder, events: seq<Event>, o: Observation)
    ensures o in ObserveAll(d, UNKNOWN, events).1 <==> Grounded(d, events, o)
  {
    match o {
      case ResponseId(id) => ResponseIdExactly(d, events, id);
      case Terminal(s) => TerminalExactly(d, events, s);
      case StreamError(code, message) => ErrorsExactly(d, events, code, message);
    }
  }

  lemma {:induction false} PacketFailure(d: Decoder, s: Splitter, k: Known, packets: seq<seq<byte>>)
    requires k.failure.None? && s.failure.None?
    ensures var seen, framing := ObserveAll(d, k, FeedAll(s, packets).1).0.failure, FeedAll(s, packets).0.failure;
            FeedPackets(d, s, k, packets).0.failure ==
            if seen.Some? then seen else if framing.Some? then Some(Framing(framing.value)) else None
    decreases |packets|
  {
    if |packets| != 0 {
      var (next, events) := Push(s, packets[0]);
      var (seen, out) := ObserveAll(d, k, events);
      ReactJoins(Reacting(d), k, events, FeedAll(next, packets[1..]).1);
      if seen.failure.Some? {
        FailedReactsNot(d, seen, FeedAll(next, packets[1..]).1);
        FailedObservesNothing(d, next, seen, packets[1..]);
      } else if next.failure.Some? {
        SseStream.TooLargeSaysNothing(next, packets[1..]);
        FailedObservesNothing(d, next, PushBytes(d, s, k, packets[0]).1, packets[1..]);
      } else {
        PacketFailure(d, next, seen, packets[1..]);
      }
    }
  }

  /** What the observer reports of a stream in packets. A response id, a terminal or an
      error is reported exactly when the JSON of the stream's events says so before one
      of them fails it; and it fails exactly when an event does not fit or, with none such,
      the framing fails, and then for that. */
  lemma ReportsExactly(d: Decoder, packets: seq<seq<byte>>)
    ensures var (k, out) := FeedPackets(d, EMPTY, UNKNOWN, packets);
            var (s, events) := FeedAll(EMPTY, packets);
            && (forall o :: o in out <==> Grounded(d, events, o))
            && (k.failure.None? <==> Undisturbed(d, events) && s.failure.None?)
            && (Undisturbed(d, events) && s.failure.Some? ==> k.failure == Some(Framing(s.failure.value)))
  {
    PacketsObserved(d, EMPTY, UNKNOWN, packets);
    PacketFailure(d, EMPTY, UNKNOWN, packets);
    var events := FeedAll(EMPTY, packets).1;
    FailsExactly(d, events);
    forall o ensures o in ObserveAll(d, UNKNOWN, events).1 <==> Grounded(d, events, o) {
      ObservationExactly(d, events, o);
    }
  }
}
