/** Progress of the event stream: when it stays open, what ends it, and that on
    a log it can follow it delivers every event up to the latest. */
module StreamProgress {
  import opened Bytes
  import opened EventStream

  /** The rows the stream has not delivered yet. */
  function Rest(log: Log, s: Reader): Log { log[FirstAfter(log, s.last)..] }

  function FrameOf(e: Event): Frame { Frame(Decimal(e.seqNo), e) }

  function Frames(events: seq<Event>): (fs: seq<Frame>)
    ensures |fs| == |events|
  {
    seq(|events|, i requires 0 <= i < |events| => FrameOf(events[i]))
  }

  // ---- when a turn leaves the stream open --------------------------------------

  ghost predicate HasNext(r: Rules, log: Log, after: nat, m: nat) { forall n | after < n <= after + m :: Has(r, log, n) }

  lemma {:induction false} NextRow(r: Rules, log: Log, after: nat, m: nat, i: nat)
    requires Ordered(log) && HasNext(r, log, after, m) && i < m && FirstAfter(log, after) + i < |log|
    ensures var e := log[FirstAfter(log, after) + i]; e.seqNo == after + 1 + i && ValidEvent(r, e)
  {
    var f := FirstAfter(log, after);
    if i > 0 { NextRow(r, log, after, m, i - 1); }
    NextPresent(r, log, after, f, i);
  }

  lemma RowsAreThere(r: Rules, log: Log, after: nat, f: nat, m: nat)
    requires f + m <= |log| && Consecutive(r, after, log[f..f + m])
    ensures HasNext(r, log, after, m)
  {
    forall n | after < n <= after + m
      ensures Has(r, log, n)
    {
      assert log[f..f + m][n - after - 1] == log[f + n - after - 1];
    }
  }

  lemma RowsAreNext(r: Rules, log: Log, after: nat, f: nat, m: nat)
    requires Ordered(log) && f == FirstAfter(log, after) && f + m <= |log| && HasNext(r, log, after, m)
    ensures Consecutive(r, after, log[f..f + m])
  {
    var rows := log[f..f + m];
    forall i | 0 <= i < m
      ensures rows[i].seqNo == after + 1 + i && ValidEvent(r, rows[i])
    {
      NextRow(r, log, after, m, i);
    }
  }

  /** A batch is accepted exactly when the next sequences, as many as it has
      rows, are all in the log and valid. */
  lemma BatchIsNext(r: Rules, log: Log, after: nat, limit: nat)
    requires Ordered(log)
    ensures var batch := ListAfter(log, after, limit); Consecutive(r, after, batch) <==> HasNext(r, log, after, |batch|)
  {
    var f, batch := FirstAfter(log, after), ListAfter(log, after, limit);
    assert batch == log[f..f + |batch|];
    if Consecutive(r, after, batch) { RowsAreThere(r, log, after, f, |batch|); }
    if HasNext(r, log, after, |batch|) { RowsAreNext(r, log, after, f, |batch|); }
  }

  /** A turn leaves an open stream open exactly when it is permitted and there is
      something buffered, or the log can be read and goes on without a gap. */
  lemma StaysOpenIff(r: Rules, s: Reader, log: Log, permitted: bool, readable: bool)
    requires Ordered(log) && s.open
    ensures Turned(r, s, log, permitted, readable).open <==>
      && permitted
      && (s.buffer != [] || (readable && HasNext(r, log, s.last, |ListAfter(log, s.last, REPLAY_BATCH_SIZE)|)))
  {
    BatchIsNext(r, log, s.last, REPLAY_BATCH_SIZE);
  }

  lemma {:induction false} ClosedForGood(r: Rules, w: World, steps: seq<Step>)
    requires !w.reader.open
    ensures Run(r, w, steps).reader == w.reader
    decreases |steps|
  {
    if steps != [] { ClosedForGood(r, Do(r, w, steps[0]), steps[1..]); }
  }

  /** Once a turn finds the permission gone no frame follows, whatever happens
      next. */
  lemma RevocationEnds(r: Rules, w: World, readable: bool, later: seq<Step>)
    ensures var u := Run(r, Do(r, w, Turn(false, readable)), later);
      !u.reader.open && u.reader.delivered == w.reader.delivered
  {
    ClosedForGood(r, Do(r, w, Turn(false, readable)), later);
  }

  // ---- catching up -----------------------------------------------------------------

  /** An open stream whose buffer holds the next rows of a log that misses none. */
  ghost predicate Following(r: Rules, log: Log, s: Reader) {
    s.open && Ordered(log) && Consecutive(r, s.last, Rest(log, s)) && s.buffer <= Rest(log, s)
  }

  lemma Advance(log: Log, after: nat)
    requires Ordered(log) && FirstAfter(log, after) < |log| && log[FirstAfter(log, after)].seqNo == after + 1
    ensures FirstAfter(log, after + 1) == FirstAfter(log, after) + 1
  {
    var f, g := FirstAfter(log, after), FirstAfter(log, after + 1);
    assert f < g;
    assert f + 1 < |log| ==> log[f].seqNo < log[f + 1].seqNo;
  }

  lemma RunGoesOn(r: Rules, after: nat, events: seq<Event>)
    requires Consecutive(r, after, events) && events != []
    ensures Consecutive(r, after + 1, events[1..]) && ValidEvent(r, events[0]) && events[0].seqNo == after + 1
  {
  }

  lemma TurnDelivers(r: Rules, log: Log, s: Reader, readable: bool)
    requires Following(r, log, s) && s.buffer != []
    ensures var t := Turned(r, s, log, true, readable);
      && Following(r, log, t) && Rest(log, t) == Rest(log, s)[1..] && t.failed == s.failed && t.last == s.last + 1
      && t.delivered == s.delivered + [FrameOf(Rest(log, s)[0])]
  {
    var t, rest := Turned(r, s, log, true, readable), Rest(log, s);
    RunGoesOn(r, s.last, rest);
    Advance(log, s.last);
    assert s.buffer[0] == rest[0] && s.buffer[1..] <= rest[1..];
    assert Rest(log, t) == rest[1..];
  }

  lemma TurnFills(r: Rules, log: Log, s: Reader)
    requires Following(r, log, s) && s.buffer == [] && Rest(log, s) != []
    ensures var t := Turned(r, s, log, true, true);
      t == s.(buffer := t.buffer) && t.buffer != [] && Following(r, log, t)
  {
  }

  ghost function Turns(r: Rules, s: Reader, log: Log, n: nat): Reader
    decreases n
  {
    if n == 0 then s else Turns(r, Turned(r, s, log, true, true), log, n - 1)
  }

  /** The stream has nothing left to deliver. */
  ghost predicate CaughtUp(s: Reader, u: Reader, events: seq<Event>) {
    u == Reader(s.last + |events|, [], true, s.delivered + Frames(events), s.failed)
  }

  lemma FramesCons(s: seq<Frame>, events: seq<Event>)
    requires events != []
    ensures s + [FrameOf(events[0])] + Frames(events[1..]) == s + Frames(events)
  {
  }

  /** On a log that stays as it is, two permitted turns an event are enough to
      deliver the whole rest of it, once and in order, and further turns change
      nothing. */
  lemma {:induction false} CatchesUp(r: Rules, log: Log, s: Reader, n: nat)
    requires Following(r, log, s) && n + (if s.buffer == [] then 0 else 1) >= 2 * |Rest(log, s)|
    ensures CaughtUp(s, Turns(r, s, log, n), Rest(log, s))
    decreases n
  {
    var t, rest := Turned(r, s, log, true, true), Rest(log, s);
    if s.buffer != [] {
      TurnDelivers(r, log, s, true);
      CatchesUp(r, log, t, n - 1);
      FramesCons(s.delivered, rest);
    } else if rest != [] {
      TurnFills(r, log, s);
      CatchesUp(r, log, t, n - 1);
    } else if n > 0 {
      assert t == s;
      CatchesUp(r, log, s, n - 1);
    }
  }

  // ---- over runs ---------------------------------------------------------------------

  function Polls(n: nat): seq<Step> { seq(n, _ => Turn(true, true)) }

  lemma {:induction false} PollsTurn(r: Rules, w: World, n: nat)
    ensures Run(r, w, Polls(n)) == w.(reader := Turns(r, w.reader, w.log, n))
    decreases n
  {
    if n > 0 {
      assert Polls(n)[1..] == Polls(n - 1);
      PollsTurn(r, Do(r, w, Turn(true, true)), n - 1);
    }
  }

  /** Events of one ordered history with one sequence are one event. */
  lemma SameSequence(history: seq<Event>, a: Event, b: Event)
    requires Ordered(history) && a in history && b in history && a.seqNo == b.seqNo
    ensures a == b
  {
  }

  /** A buffer that the log reaches past holds the log's own next rows. */
  lemma BufferFollows(r: Rules, after: nat, w: World)
    requires Inv(r, after, w) && w.reader.open && Present(r, w.log, w.reader.last)
    requires w.reader.last + |w.reader.buffer| <= Latest(w.log)
    ensures Following(r, w.log, w.reader) && |Rest(w.log, w.reader)| == Latest(w.log) - w.reader.last
  {
    var s, rest := w.reader, Rest(w.log, w.reader);
    PresentIsRun(r, w.log, s.last);
    forall i | 0 <= i < |s.buffer|
      ensures s.buffer[i] == rest[i]
    {
      assert rest[i] in w.log && s.buffer[i] in s.buffer;
      SameSequence(w.history, s.buffer[i], rest[i]);
    }
  }

  /** After any run, if the log then has every event after the cursor, enough
      permitted turns deliver them all: the frames are those of every sequence
      from the first after the opening cursor to the latest, each once. */
  lemma StreamCatchesUp(r: Rules, after: nat, w: World, steps: seq<Step>, n: nat)
    requires Inv(r, after, w)
    requires var t := Run(r, w, steps);
      && t.reader.open && Present(r, t.log, t.reader.last) && t.reader.last + |t.reader.buffer| <= Latest(t.log)
      && n >= 2 * (Latest(t.log) - t.reader.last)
    ensures var t := Run(r, w, steps);
      var u := Run(r, t, Polls(n));
      && u.reader.open && u.reader.last == Latest(t.log) && |u.reader.delivered| == Latest(t.log) - after
      && t.reader.delivered <= u.reader.delivered && Gapless(r, after, u.reader.delivered, u.history)
  {
    var t := Run(r, w, steps);
    StreamIsGapless(r, after, w, steps);
    BufferFollows(r, after, t);
    CatchesUp(r, t.log, t.reader, n);
    PollsTurn(r, t, n);
    StreamIsGapless(r, after, t, Polls(n));
  }
}
