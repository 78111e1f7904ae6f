/** The bounded line reader in front of the MCP transport: it passes bytes
    through until some line grows longer than its limit. */
module BoundedLines {
  import opened Bytes

  const MAX_MCP_FRAME_BYTES: nat := 1024 * 1024
  const NEWLINE: Byte := 10

  // ---- lines of a byte stream -------------------------------------------------

  /** Bytes since the last newline. */
  function Unfinished(s: Buf): (n: nat)
    ensures n <= |s|
  {
    if s == [] || s[|s| - 1] == NEWLINE then 0 else 1 + Unfinished(s[..|s| - 1])
  }

  /** A stretch of the stream with no newline in it. */
  ghost predicate Stretch(s: Buf, i: nat, j: nat) {
    i <= j <= |s| && forall k | i <= k < j :: s[k] != NEWLINE
  }

  ghost predicate Overlong(s: Buf, limit: nat) {
    exists i: nat, j: nat :: Stretch(s, i, j) && j - i > limit
  }

  /** The unfinished line is the longest stretch that reaches the end. */
  lemma {:induction false} UnfinishedIsStretch(s: Buf, i: nat)
    requires i <= |s|
    ensures Stretch(s, i, |s|) <==> |s| - i <= Unfinished(s)
  {
    if i < |s| {
      var t := s[..|s| - 1];
      if s[|s| - 1] != NEWLINE { UnfinishedIsStretch(t, i); }
      assert forall k | i <= k < |t| :: t[k] == s[k];
    }
  }

  lemma OverlongGrows(s: Buf, more: Buf, limit: nat)
    requires Overlong(s, limit)
    ensures Overlong(s + more, limit)
  {
    var i: nat, j: nat :| Stretch(s, i, j) && j - i > limit;
    assert Stretch(s + more, i, j);
  }

  lemma OverlongByOne(s: Buf, b: Byte, limit: nat)
    requires !Overlong(s, limit)
    ensures Overlong(s + [b], limit) <==> Unfinished(s + [b]) > limit
  {
    var t := s + [b];
    if Unfinished(t) > limit {
      var i := |t| - Unfinished(t);
      UnfinishedIsStretch(t, i);
      assert Stretch(t, i, |t|);
    }
    if Overlong(t, limit) {
      var i: nat, j: nat :| Stretch(t, i, j) && j - i > limit;
      if j <= |s| {
        assert forall k | i <= k < j :: s[k] == t[k];
        assert Stretch(s, i, j);
      } else {
        UnfinishedIsStretch(t, i);
      }
    }
  }

  // ---- the byte loop ----------------------------------------------------------

  /** The line length after these bytes, or none once it passes the limit. */
  function Count(current: nat, bytes: Buf, limit: nat): (n: Option<nat>) {
    if bytes == [] then Some(current)
    else
      match Count(current, bytes[..|bytes| - 1], limit)
      case None => None
      case Some(n) =>
        if bytes[|bytes| - 1] == NEWLINE then Some(0) else if n + 1 > limit then None else Some(n + 1)
  }

  lemma {:induction false} CountStops(current: nat, bytes: Buf, limit: nat, k: nat)
    requires k <= |bytes| && Count(current, bytes[..k], limit) == None
    ensures Count(current, bytes, limit) == None
    decreases |bytes|
  {
    if k < |bytes| {
      assert bytes[..|bytes| - 1][..k] == bytes[..k];
      CountStops(current, bytes[..|bytes| - 1], limit, k);
    } else {
      assert bytes[..k] == bytes;
    }
  }

  method Scan(current: nat, bytes: Buf, limit: nat) returns (next: Option<nat>)
    ensures next == Count(current, bytes, limit)
  {
    var count := current;
    for k := 0 to |bytes|
      invariant Count(current, bytes[..k], limit) == Some(count)
    {
      assert bytes[..k + 1][..k] == bytes[..k];
      if bytes[k] == NEWLINE {
        count := 0;
      } else {
        count := count + 1;
        if count > limit {
          CountStops(current, bytes, limit, k + 1);
          return None;
        }
      }
    }
    assert bytes[..|bytes|] == bytes;
    return Some(count);
  }

  /** Counting on from a stream's unfinished line decides, and follows, the
      longer stream. */
  lemma {:induction false} CountFollows(s: Buf, bytes: Buf, limit: nat)
    requires !Overlong(s, limit)
    ensures Count(Unfinished(s), bytes, limit) ==
            if Overlong(s + bytes, limit) then None else Some(Unfinished(s + bytes))
    decreases |bytes|
  {
    if bytes == [] {
      assert s + bytes == s;
    } else {
      var front, b := bytes[..|bytes| - 1], bytes[|bytes| - 1];
      var t := s + front;
      CountFollows(s, front, limit);
      assert s + bytes == t + [b] && (t + [b])[..|t|] == t;
      if Overlong(t, limit) {
        OverlongGrows(t, [b], limit);
      } else {
        OverlongByOne(t, b, limit);
      }
    }
  }

  // ---- one poll ---------------------------------------------------------------

  /** What the wrapped reader answers: nothing yet, an error, or up to n of
      its next bytes. */
  datatype Inner = Pending | Fails | Gives(n: nat)

  datatype Outcome = NotReady | InnerError | TooLong | Ready(bytes: Buf)

  datatype Reader = Reader(current: nat, unread: Buf)

  function Min(a: nat, b: nat): nat { if a < b then a else b }

  function Allowance(limit: nat, current: nat, remaining: nat): nat {
    Min(remaining, (if current < limit then limit - current else 0) + 1)
  }

  /** The bytes the wrapped reader hands over for this poll. */
  function Given(limit: nat, r: Reader, remaining: nat, inner: Inner): Buf {
    if remaining == 0 || !inner.Gives? then []
    else r.unread[..Min(Min(inner.n, Allowance(limit, r.current, remaining)), |r.unread|)]
  }

  function Poll(limit: nat, r: Reader, remaining: nat, inner: Inner): (Outcome, Reader) {
    if remaining == 0 then (Ready([]), r)
    else match inner
      case Pending => (NotReady, r)
      case Fails => (InnerError, r)
      case Gives(_) =>
        var bytes := Given(limit, r, remaining, inner);
        match Count(r.current, bytes, limit)
        case None => (TooLong, r.(unread := r.unread[|bytes|..]))
        case Some(n) => (Ready(bytes), Reader(n, r.unread[|bytes|..]))
  }

  class BoundedReader {
    const limit: nat
    var current: nat
    var unread: Buf

    constructor (limit: nat, stream: Buf)
      ensures this.limit == limit && State() == Reader(0, stream)
    {
      this.limit := limit;
      current := 0;
      unread := stream;
    }

    constructor Mcp(stream: Buf)
      ensures limit == MAX_MCP_FRAME_BYTES && State() == Reader(0, stream)
    {
      limit := MAX_MCP_FRAME_BYTES;
      current := 0;
      unread := stream;
    }

    function State(): Reader reads this { Reader(current, unread) }

    method PollRead(remaining: nat, inner: Inner) returns (o: Outcome)
      modifies this
      ensures (o, State()) == Poll(limit, old(State()), remaining, inner)
      ensures remaining > 0 ==> (o.NotReady? <==> inner.Pending?) && (o.InnerError? <==> inner.Fails?)
      ensures o.NotReady? || o.InnerError? ==> State() == old(State())
    {
      if remaining == 0 { return Ready([]); }
      var room := if current < limit then limit - current else 0;
      var allowance := Min(remaining, room + 1);
      match inner {
        case Pending => return NotReady;
        case Fails => return InnerError;
        case Gives(n) =>
          var bytes := unread[..Min(Min(n, allowance), |unread|)];
          unread := unread[|bytes|..];
          var next := Scan(current, bytes, limit);
          if next.None? { return TooLong; }
          current := next.value;
          return Ready(bytes);
      }
    }
  }

  // ---- whole runs -------------------------------------------------------------

  datatype Step = Step(remaining: nat, inner: Inner)

  /** A caller that stops at the first over-long line: what the wrapped
      reader handed over, and what the caller received. */
  datatype Run = Run(reader: Reader, consumed: Buf, delivered: Buf, refused: bool)

  function Start(stream: Buf): Run { Run(Reader(0, stream), [], [], false) }

  function Do(limit: nat, w: Run, step: Step): Run {
    if w.refused then w
    else
      var given := Given(limit, w.reader, step.remaining, step.inner);
      var (o, reader) := Poll(limit, w.reader, step.remaining, step.inner);
      Run(reader, w.consumed + given, if o.Ready? then w.delivered + o.bytes else w.delivered, o.TooLong?)
  }

  function After(limit: nat, w: Run, steps: seq<Step>): Run
    decreases |steps|
  {
    if steps == [] then w else Do(limit, After(limit, w, steps[..|steps| - 1]), steps[|steps| - 1])
  }

  ghost predicate Inv(limit: nat, stream: Buf, w: Run) {
    && w.consumed + w.reader.unread == stream
    && w.delivered <= w.consumed
    && !Overlong(w.delivered, limit)
    && w.reader.current == Unfinished(w.delivered) <= limit
    && (w.refused <==> Overlong(w.consumed, limit))
    && (!w.refused ==> w.delivered == w.consumed)
    && |w.consumed| - |w.delivered| <= limit - w.reader.current + 1
  }

  lemma NotOverlong(s: Buf, limit: nat)
    requires !Overlong(s, limit)
    ensures Unfinished(s) <= limit
  {
    var i := |s| - Unfinished(s);
    UnfinishedIsStretch(s, i);
    assert Stretch(s, i, |s|);
  }

  lemma DoKeeps(limit: nat, stream: Buf, w: Run, step: Step)
    requires Inv(limit, stream, w)
    ensures Inv(limit, stream, Do(limit, w, step))
  {
    if !w.refused {
      var given := Given(limit, w.reader, step.remaining, step.inner);
      var s := w.consumed + given;
      CountFollows(w.consumed, given, limit);
      assert s + w.reader.unread[|given|..] == stream;
      assert given == [] ==> s == w.consumed;
      if !Overlong(s, limit) { NotOverlong(s, limit); }
    }
  }

  /** For every stream, every split of the wrapped reads and every sequence of
      caller buffers: bytes come through unchanged and in order, the counter is
      the unfinished line, a refusal means an over-long line was consumed and
      comes with it, and at most the limit and one byte are held back. */
  lemma {:induction false} ReaderIsExact(limit: nat, stream: Buf, steps: seq<Step>)
    ensures Inv(limit, stream, After(limit, Start(stream), steps))
    decreases |steps|
  {
    if steps == [] {
      assert !Overlong([], limit);
    } else {
      ReaderIsExact(limit, stream, steps[..|steps| - 1]);
      DoKeeps(limit, stream, After(limit, Start(stream), steps[..|steps| - 1]), steps[|steps| - 1]);
    }
  }

  /** A stream whose lines all fit is never refused; one with a line that does
      not is refused before it is used up. */
  lemma RefusalIsTheStreams(limit: nat, stream: Buf, steps: seq<Step>)
    ensures var w := After(limit, Start(stream), steps);
      && (w.refused ==> Overlong(stream, limit))
      && (w.reader.unread == [] && Overlong(stream, limit) ==> w.refused)
      && (w.reader.unread == [] && !Overlong(stream, limit) ==> w.delivered == stream)
  {
    var w := After(limit, Start(stream), steps);
    ReaderIsExact(limit, stream, steps);
    if w.refused { OverlongGrows(w.consumed, w.reader.unread, limit); }
    if w.reader.unread == [] { assert w.consumed + [] == w.consumed; }
  }
}
