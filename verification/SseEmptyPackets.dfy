/** Exactly when an empty packet shows in the splitter's state. */
module SseEmptyPackets {
  import opened Results
  import opened Utf8
  import opened Sse
  import opened SsePackets
  import opened SseReference
  import opened SseStream

  /** A splitter between packets: what is buffered holds no complete event and fits
      the cap, and an LF is only swallowed at the start of an event. */
  predicate Resting(s: Splitter) {
    s.failure.None? ==>
      Scan(s.buf, 0, false).None? && |s.buf| <= MAX_EVENT_BYTES && (s.swallow ==> s.buf == [])
  }

  lemma PushRests(s: Splitter, packet: seq<byte>)
    requires Resting(s)
    ensures Resting(Push(s, packet).0)
  {
    if s.failure.None? {
      DrainReads(s.buf + Trimmed(s, packet), false);
    }
  }

  /** Every splitter is, between packets. */
  lemma {:induction false} AlwaysRests(s: Splitter, packets: seq<seq<byte>>)
    requires Resting(s)
    ensures Resting(FeedAll(s, packets).0)
    decreases |packets|
  {
    if |packets| != 0 {
      PushRests(s, packets[0]);
      AlwaysRests(Push(s, packets[0]).0, packets[1..]);
    }
  }

  /** What comes after the leading line breaks. */
  function Text(q: seq<byte>): seq<byte> {
    if q == [] || !IsBreak(q[0]) then q else Text(q[1..])
  }

  /** Nothing of it can be dispatched, and all of it stays buffered. */
  predicate Lingers(text: seq<byte>) {
    Scan(text, 0, false).None? && |text| <= MAX_EVENT_BYTES
  }

  // ---------------------------------------------------------------------
  // A terminator more at the start.

  lemma {:induction false} ScanShifts(x: seq<byte>, y: seq<byte>, i: nat, prev: bool)
    requires i <= |y|
    ensures Scan(x + y, |x| + i, prev) ==
            match Scan(y, i, prev)
            case None => None
            case Some(end) => Some(|x| + end)
    decreases |y| - i
  {
    if i < |y| {
      assert (x + y)[|x| + i] == y[i];
      assert i + 1 < |y| ==> (x + y)[|x| + i + 1] == y[i + 1];
      var n := BreakLength(y, i);
      assert BreakLength(x + y, |x| + i) == n;
      if n == 0 {
        ScanShifts(x, y, i + 1, false);
      } else if !prev {
        ScanShifts(x, y, i + n, true);
      }
    }
  }

  /** `t` is one line terminator, whatever follows. */
  predicate Terminator(t: seq<byte>, r: seq<byte>) {
    t == [LF] || t == [CR, LF] || (t == [CR] && r != [] && r[0] != LF)
  }

  lemma TerminatorScans(t: seq<byte>, r: seq<byte>)
    requires Terminator(t, r)
    ensures BreakLength(t + r, 0) == |t| && Scan(t + r, 0, false) == Scan(t + r, |t|, true)
  {
    assert (t + r)[0] == t[0];
    if |t + r| > 1 {
      assert (t + r)[1] == if |t| == 2 then LF else r[0];
    }
  }

  lemma {:induction false} BreaksSayNothing(t: seq<byte>)
    requires forall b | b in t :: IsBreak(b)
    ensures ValidUtf8(t) && ParseEvent(t) == []
  {
    if t == [] {
      var lines: seq<seq<byte>> := [[]];
      assert Lines([]) == lines && lines[..0] == [] && TakeLines(lines) == NOTHING;
    } else {
      var head, b := t[..|t| - 1], t[|t| - 1];
      assert t == head + [b] && b in t && forall c | c in head :: c in t;
      BreaksSayNothing(head);
      TrailingBreak(head, b);
    }
  }

  /** Two terminators in a row are an event that says nothing. */
  lemma BlankPair(t: seq<byte>, r: seq<byte>, n: nat, endedCr: bool)
    requires Terminator(t, r) && r != [] && IsBreak(r[0]) && n == BreakLength(r, 0)
    ensures Settle(Drain(t + r, endedCr)) == Settle(Drain(r[n..], r[n - 1] == CR))
  {
    TerminatorScans(t, r);
    ScanShifts(t, r, 0, true);
    var pair := t + r[..n];
    assert t + r == pair + r[n..];
    forall b | b in pair ensures IsBreak(b) {
      assert b in t || b in r[..n];
    }
    BreaksSayNothing(pair);
    DrainIs(t + r, pair, r[n..], endedCr);
    AfterTwice([], [], Drain(r[n..], r[n - 1] == CR));
  }

  /** A terminator before text is another empty line of its event. */
  lemma BeforeText(t: seq<byte>, r: seq<byte>, left: bool, right: bool)
    requires Terminator(t, r) && r != [] && !IsBreak(r[0])
    ensures Settle(Drain(t + r, left)) == Settle(Drain(r, right)) <==> !Lingers(r)
  {
    TerminatorScans(t, r);
    ScanShifts(t, r, 0, true);
    assert BreakLength(r, 0) == 0 && Scan(r, 0, true) == Scan(r, 1, false) == Scan(r, 0, false);
    if Scan(r, 0, false).Some? {
      var raw, tail := r[..Scan(r, 0, false).value], r[Scan(r, 0, false).value..];
      assert r == raw + tail;
      BeforeEvent(t, raw, tail, left, right);
    } else {
      DrainNone([], t + r, left);
      DrainNone([], r, right);
      assert |t + r| != |r|;
    }
  }

  lemma BeforeEvent(t: seq<byte>, raw: seq<byte>, tail: seq<byte>, left: bool, right: bool)
    requires (t == [LF] || t == [CR] || t == [CR, LF]) && raw != []
    requires Scan(raw + tail, 0, false) == Some(|raw|) && Scan(t + (raw + tail), 0, false) == Some(|t| + |raw|)
    ensures Settle(Drain(t + (raw + tail), left)) == Settle(Drain(raw + tail, right))
  {
    assert t + (raw + tail) == (t + raw) + tail;
    DrainIs(raw + tail, raw, tail, right);
    DrainIs(t + (raw + tail), t + raw, tail, left);
    TerminatorValid(t, raw);
    assert (t + raw)[|t + raw| - 1] == raw[|raw| - 1];
    SettleIgnores(ParseEvent(t + raw), ParseEvent(raw), Drain(tail, raw[|raw| - 1] == CR));
  }

  lemma SettleIgnores(first: seq<Event>, second: seq<Event>, d: Drained)
    ensures Settle(After(first, d)) == Settle(After(second, d))
  {
  }

  lemma TerminatorValid(t: seq<byte>, raw: seq<byte>)
    requires t == [LF] || t == [CR] || t == [CR, LF]
    ensures ValidUtf8(t + raw) <==> ValidUtf8(raw)
  {
    AsciiSeparates([], t[|t| - 1], raw);
    assert [] + [t[|t| - 1]] + raw == [t[|t| - 1]] + raw;
    if |t| == 2 {
      AsciiSeparates([], CR, [LF] + raw);
      assert [] + [CR] + ([LF] + raw) == t + raw;
    }
  }

  lemma LastCr(t: seq<byte>, left: bool, right: bool)
    requires Terminator(t, [CR])
    ensures Settle(Drain(t + [CR], left)) == Splitter([], true, None)
    ensures Settle(Drain([CR], right)) == Splitter([CR], false, None)
  {
    BlankPair(t, [CR], 1, left);
    assert [CR][1..] == [];
  }

  /** A terminator more at the start ends in the same state exactly when the text
      after all the leading ones does not linger. In a run of terminators each two
      are an event, so one more changes which of them is left over; what is left over
      is seen until an event ends. */
  lemma {:induction false} OneMoreTerminator(t: seq<byte>, r: seq<byte>, left: bool, right: bool)
    requires Terminator(t, r)
    ensures Settle(Drain(t + r, left)) == Settle(Drain(r, right)) <==> !Lingers(Text(r))
    decreases |r|
  {
    if r == [] {
      assert t + r == t;
      TerminatorScans(t, r);
      assert Text(r) == [];
    } else if !IsBreak(r[0]) {
      BeforeText(t, r, left, right);
    } else if r == [CR] {
      LastCr(t, left, right);
      assert r[1..] == [] && Text(r) == Text([]);
    } else {
      var n := BreakLength(r, 0);
      var next, rest := r[..n], r[n..];
      assert r == next + rest;
      BlankPair(t, r, n, left);
      assert Terminator(next, rest);
      TextSkips(r, n);
      OneMoreTerminator(next, rest, right, r[n - 1] == CR);
    }
  }

  lemma TextSkips(r: seq<byte>, n: nat)
    requires r != [] && IsBreak(r[0]) && n == BreakLength(r, 0)
    ensures Text(r) == Text(r[n..])
  {
    if n == 2 {
      assert r[1..][0] == LF && r[1..][1..] == r[2..];
    }
  }

  // ---------------------------------------------------------------------
  // One empty packet.

  /** The splitter is waiting for the LF of a pair, that LF comes next, and what
      follows it is not enough to end an event; or nothing comes any more. */
  predicate Shows(s: Splitter, next: seq<byte>) {
    && s.failure.None? && s.swallow
    && (next == [] || (next[0] == LF && Lingers(Text(next))))
  }

  lemma EmptyPush(s: Splitter)
    requires Resting(s)
    ensures Push(s, []) == (if s.failure.None? && s.swallow then EMPTY else s, [])
  {
    assert s.buf + Trimmed(s, []) == s.buf;
  }

  /** An empty packet changes what the next bytes lead to exactly then; the events
      it never changes. */
  lemma EmptyPacketExactly(s: Splitter, q: seq<byte>)
    requires Resting(s) && q != []
    ensures Push(s, []).1 == [] && Push(Push(s, []).0, q).1 == Push(s, q).1
    ensures Push(Push(s, []).0, q).0 == Push(s, q).0 <==> !Shows(s, q)
  {
    EmptyPush(s);
    if s.failure.None? && s.swallow {
      assert [] + q == q && [] + Trimmed(s, q) == Trimmed(s, q);
      if q[0] == LF {
        var r := q[1..];
        assert q == [LF] + r;
        OneMoreTerminator([LF], r, false, false);
      }
      PushAgrees(EMPTY, Idle(false), q);
      PushAgrees(s, Idle(true), q);
      IdleFlag(q);
    }
  }

  // ---------------------------------------------------------------------
  // A stream with empty packets in it.

  /** No empty packet shows in what is still to come. */
  predicate Harmless(s: Splitter, packets: seq<seq<byte>>)
    decreases |packets|
  {
    |packets| == 0 ||
    ((packets[0] == [] ==> !Shows(s, Concat(packets[1..]))) && Harmless(Push(s, packets[0]).0, packets[1..]))
  }

  lemma {:induction false} NothingButEmpty(packets: seq<seq<byte>>)
    requires |packets| > 0 && Concat(packets) == []
    ensures packets[0] == [] && Concat(packets[1..]) == []
  {
  }

  /** Empty packets that do not show do not matter either: events and state are
      those of one push of the whole. */
  lemma {:induction false} EmptyPacketsDoNotMatter(s: Splitter, packets: seq<seq<byte>>)
    requires Resting(s) && |packets| > 0 && Fits(s, packets) && Harmless(s, packets)
    ensures FeedAll(s, packets) == Push(s, Concat(packets))
    decreases |packets|
  {
    var first, rest := packets[0], packets[1..];
    var next := Push(s, first).0;
    PushRests(s, first);
    assert Push(s, first).1 + [] == Push(s, first).1;
    if rest == [] {
      assert first + [] == first;
    } else {
      EmptyPacketsDoNotMatter(next, rest);
      if Concat(rest) == [] {
        NothingButEmpty(rest);
        EmptyPush(next);
        EmptyPush(s);
        assert first + [] == first;
      } else if first == [] {
        assert [] + Concat(rest) == Concat(rest);
        EmptyPacketExactly(s, Concat(rest));
        assert [] + Push(next, Concat(rest)).1 == Push(next, Concat(rest)).1;
      } else {
        PushTwice(s, first, Concat(rest));
      }
    }
  }

  /** A missing LF may well not show: here an event ends after it. */
  lemma RecoversAtNextEvent(s: Splitter)
    requires s == Splitter([], true, None)
    ensures var q := [LF, 97, LF, LF]; Push(Push(s, []).0, q).0 == Push(s, q).0
  {
    var q, text := [LF, 97, LF, LF], [97, LF, LF];
    assert q[1..] == text && Text(text) == text && Text(q) == text;
    assert Scan(text, 2, true) == Some(3) && Scan(text, 1, false) == Some(3) && Scan(text, 0, false) == Some(3);
    EmptyPacketExactly(s, q);
  }
}
