/** Event replay: the bounded preflight, the buffered stream that polls a
    growing log, and the cursor a client prints and presents on reconnect. */
module EventStream {
  import opened Bytes

  const REPLAY_BATCH_SIZE: nat := 64
  const MAX_REPLAY_EVENTS: nat := 1_024

  datatype Event = Event(seqNo: nat, at: Buf, kind: Buf, body: Buf, id: Option<Buf>, sequence: Option<nat>)

  /** The digest of an event's identity text and the time syntax check. */
  datatype Rules = Rules(eventId: (nat, Buf, Buf) -> Buf, timeOk: Buf -> bool)

  predicate ValidEvent(r: Rules, e: Event) {
    && e.seqNo <= MAX_SAFE_INTEGER
    && e.id == Some(r.eventId(e.seqNo, e.kind, e.body))
    && e.sequence == Some(e.seqNo)
    && e.kind != []
    && r.timeOk(e.at)
  }

  // ---- the log ------------------------------------------------------------

  type Log = seq<Event>

  ghost predicate Ordered(log: Log) {
    (forall i | 0 <= i < |log| :: 0 < log[i].seqNo <= U64_MAX)
    && forall i, j | 0 <= i < j < |log| :: log[i].seqNo < log[j].seqNo
  }

  function Latest(log: Log): nat { if log == [] then 0 else log[|log| - 1].seqNo }

  /** Index of the first row with a sequence beyond the cursor. */
  function FirstAfter(log: Log, after: nat): (i: nat)
    ensures i <= |log|
    ensures forall k | 0 <= k < i :: log[k].seqNo <= after
    ensures i < |log| ==> log[i].seqNo > after
  {
    if log == [] || log[0].seqNo > after then 0 else 1 + FirstAfter(log[1..], after)
  }

  /** `list_events_after`: rows beyond the cursor, oldest first, capped. */
  function ListAfter(log: Log, after: nat, limit: nat): Log {
    var rest := log[FirstAfter(log, after)..];
    if |rest| <= limit then rest else rest[..limit]
  }

  // ---- batch validation ---------------------------------------------------

  datatype Refusal = InvalidCursor | ConflictingCursor | CannotAdvance | Ahead | PrefixGone | TooFar | NextGone | Gap | BadEvent
  datatype Result<+T> = Ok(value: T) | Err(why: Refusal)

  /** The batch is the run of valid events right after the cursor. */
  ghost predicate Consecutive(r: Rules, after: nat, events: seq<Event>) {
    forall i | 0 <= i < |events| :: events[i].seqNo == after + 1 + i && ValidEvent(r, events[i])
  }

  /** After a good front the next event is out of sequence, or in sequence and
      not valid. */
  ghost predicate BadAt(r: Rules, after: nat, events: seq<Event>, k: nat, why: Refusal) {
    && k < |events| && Consecutive(r, after, events[..k])
    && if events[k].seqNo != after + 1 + k then why == Gap else !ValidEvent(r, events[k]) && why == BadEvent
  }

  ghost predicate FirstBad(r: Rules, after: nat, events: seq<Event>, why: Refusal) {
    exists k: nat :: BadAt(r, after, events, k, why)
  }

  method ValidateBatch(r: Rules, after: nat, events: seq<Event>) returns (out: Result<()>)
    requires after <= U64_MAX
    ensures out.Ok? <==> after < U64_MAX && Consecutive(r, after, events)
    ensures out.Err? ==> if after == U64_MAX then out.why == CannotAdvance else FirstBad(r, after, events, out.why)
  {
    if after == U64_MAX { return Err(CannotAdvance); }
    var expected := after + 1;
    for k := 0 to |events|
      invariant expected == after + 1 + k <= U64_MAX
      invariant Consecutive(r, after, events[..k])
    {
      if events[k].seqNo != expected {
        assert BadAt(r, after, events, k, Gap);
        return Err(Gap);
      }
      if !ValidEvent(r, events[k]) {
        assert BadAt(r, after, events, k, BadEvent);
        return Err(BadEvent);
      }
      expected := expected + 1;
      assert Consecutive(r, after, events[..k + 1]);
    }
    assert events[..|events|] == events;
    return Ok(());
  }

  // ---- preflight ----------------------------------------------------------

  /** Every sequence in `(after, latest]` is in the log, and valid. */
  ghost predicate Present(r: Rules, log: Log, after: nat) {
    forall n | after < n <= Latest(log) :: Has(r, log, n)
  }

  ghost predicate Has(r: Rules, log: Log, n: nat) {
    exists k :: 0 <= k < |log| && log[k].seqNo == n && ValidEvent(r, log[k])
  }

  method ReplayPreflight(r: Rules, log: Log, after: nat) returns (out: Result<seq<Event>>)
    requires Ordered(log) && after <= U64_MAX
    ensures out.Ok? <==>
      after < U64_MAX && after <= Latest(log) && Latest(log) - after <= MAX_REPLAY_EVENTS && Present(r, log, after)
    ensures out.Ok? ==> out.value == log[FirstAfter(log, after)..] && Consecutive(r, after, out.value)
    ensures out.Ok? ==> |out.value| == Latest(log) - after
    ensures out == Err(Ahead) <==> after > Latest(log)
    ensures out == Err(PrefixGone) <==> after <= Latest(log) && log != [] && log[0].seqNo > after + 1
    ensures out == Err(TooFar) <==>
      after <= Latest(log) && !(log != [] && log[0].seqNo > after + 1) && Latest(log) - after > MAX_REPLAY_EVENTS
  {
    var earliest := ListAfter(log, 0, 1);
    var latest := Latest(log);
    var initial := if after <= latest then ListAfter(log, after, MAX_REPLAY_EVENTS) else [];
    Locate(log, after);
    if after > latest { return Err(Ahead); }
    if after < U64_MAX && Present(r, log, after) { PresentIsRun(r, log, after); }
    if log != [] { EarliestIsFirst(log); }
    if earliest != [] && earliest[0].seqNo > after + 1 { return Err(PrefixGone); }
    if latest - after > MAX_REPLAY_EVENTS { return Err(TooFar); }
    if after < latest && initial == [] { return Err(NextGone); }
    var checked := ValidateBatch(r, after, initial);
    if checked.Err? { return Err(checked.why); }
    NothingCut(r, log, after);
    RunIsPresent(r, log, after);
    return Ok(initial);
  }

  lemma EarliestIsFirst(log: Log)
    requires Ordered(log) && log != []
    ensures ListAfter(log, 0, 1) == [log[0]]
  {
  }

  lemma Locate(log: Log, after: nat)
    requires Ordered(log)
    ensures FirstAfter(log, after) < |log| <==> after < Latest(log)
  {
  }

  lemma {:induction false} RestStrict(r: Rules, log: Log, after: nat, i: nat)
    requires Ordered(log) && Present(r, log, after)
    requires FirstAfter(log, after) + i < |log|
    ensures var e := log[FirstAfter(log, after) + i]; e.seqNo == after + 1 + i && ValidEvent(r, e)
  {
    var f := FirstAfter(log, after);
    if i > 0 { RestStrict(r, log, after, i - 1); }
    assert after + 1 + i <= log[f + i].seqNo <= Latest(log);
    NextPresent(r, log, after, f, i);
  }

  /** If the next sequence is in the log at all it is the next row. */
  lemma NextPresent(r: Rules, log: Log, after: nat, f: nat, i: nat)
    requires Ordered(log) && Has(r, log, after + 1 + i) && f == FirstAfter(log, after) && f + i < |log|
    requires i > 0 ==> log[f + i - 1].seqNo == after + i
    ensures log[f + i].seqNo == after + 1 + i && ValidEvent(r, log[f + i])
  {
    var n := after + 1 + i;
    assert n <= log[f + i].seqNo;
    var k :| 0 <= k < |log| && log[k].seqNo == n && ValidEvent(r, log[k]);
    assert k >= f;
    assert k == f + i;
  }

  /** A fully present, valid tail is exactly the consecutive run. */
  lemma PresentIsRun(r: Rules, log: Log, after: nat)
    requires Ordered(log) && Present(r, log, after) && after <= Latest(log)
    ensures var rest := log[FirstAfter(log, after)..]; Consecutive(r, after, rest) && |rest| == Latest(log) - after
  {
    var f := FirstAfter(log, after);
    forall i | 0 <= i < |log| - f
      ensures log[f..][i].seqNo == after + 1 + i && ValidEvent(r, log[f..][i])
    {
      RestStrict(r, log, after, i);
    }
    Locate(log, after);
  }

  lemma CutReaches(log: Log, after: nat, limit: nat)
    requires Ordered(log) && 0 < limit < |log| - FirstAfter(log, after)
    ensures ListAfter(log, after, limit)[limit - 1].seqNo < Latest(log)
  {
  }

  lemma NothingCut(r: Rules, log: Log, after: nat)
    requires Ordered(log) && Latest(log) <= after + MAX_REPLAY_EVENTS
    requires Consecutive(r, after, ListAfter(log, after, MAX_REPLAY_EVENTS))
    ensures ListAfter(log, after, MAX_REPLAY_EVENTS) == log[FirstAfter(log, after)..]
  {
    if |log| - FirstAfter(log, after) > MAX_REPLAY_EVENTS { CutReaches(log, after, MAX_REPLAY_EVENTS); }
  }

  lemma RunIsPresent(r: Rules, log: Log, after: nat)
    requires Ordered(log) && after <= Latest(log)
    requires Consecutive(r, after, log[FirstAfter(log, after)..])
    ensures Present(r, log, after)
    ensures |log| - FirstAfter(log, after) == Latest(log) - after
  {
    var f := FirstAfter(log, after);
    var rest := log[f..];
    Locate(log, after);
    if f < |log| { assert rest[|rest| - 1] == log[|log| - 1]; }
    forall n | after < n <= Latest(log)
      ensures Has(r, log, n)
    {
      assert rest[n - after - 1] == log[f + n - after - 1];
    }
  }

  // ---- cursors ------------------------------------------------------------

  function ParseCursor(value: Buf): Result<nat> {
    if value == [] || exists i | 0 <= i < |value| :: !IsDigit(value[i]) then Err(InvalidCursor)
    else if DecimalValue(value) > U64_MAX then Err(InvalidCursor)
    else Ok(DecimalValue(value))
  }

  const AFTER: Buf := Ascii("after=")
  const AMPERSAND: Byte := 38

  /** The query's fields, separated by ampersands. */
  function Fields(b: Buf): (fs: seq<Buf>)
    ensures fs != []
    ensures AMPERSAND !in b ==> fs == [b]
    ensures |fs| == 1 ==> fs[0] == b
  {
    if b == [] then [[]]
    else
      var rest := Fields(b[1..]);
      assert [b[0]] + b[1..] == b;
      if b[0] == AMPERSAND then [[]] + rest else [[b[0]] + rest[0]] + rest[1..]
  }

  function AfterFields(fs: seq<Buf>): nat {
    if fs == [] then 0 else (if AFTER <= fs[0] then 1 else 0) + AfterFields(fs[1..])
  }

  function QueryCursor(query: Option<Buf>): Result<Option<Buf>> {
    if query == None then Ok(None)
    else
      var fs := Fields(query.value);
      if |fs| != 1 then Err(if AfterFields(fs) > 1 then ConflictingCursor else InvalidCursor)
      else if AFTER <= fs[0] then Ok(Some(fs[0][|AFTER|..]))
      else Err(InvalidCursor)
  }

  predicate IsText(b: Buf) { forall i | 0 <= i < |b| :: b[i] == 9 || 32 <= b[i] < 127 }

  /** The cursor of one request: the `after` query field or the
      `Last-Event-ID` header, never both, zero when there is neither. */
  function EventCursor(query: Option<Buf>, headers: seq<Buf>): Result<nat> {
    match QueryCursor(query)
    case Err(why) => Err(why)
    case Ok(asked) =>
      if headers != [] && !IsText(headers[0]) then Err(InvalidCursor)
      else if |headers| > 1 || (asked.Some? && headers != []) then Err(ConflictingCursor)
      else if asked.Some? then ParseCursor(asked.value)
      else if headers != [] then ParseCursor(headers[0])
      else Ok(0)
  }

  /** A printed sequence read back, by either route, is the same cursor. */
  lemma CursorRoundTrip(n: nat)
    requires n <= U64_MAX
    ensures EventCursor(None, [Decimal(n)]) == Ok(n)
    ensures EventCursor(Some(AFTER + Decimal(n)), []) == Ok(n)
  {
    DecimalRoundTrip(n);
    DigitsAreText(Decimal(n));
  }

  /** Decimal digits, leading zeros included, of a 64-bit number. */
  predicate Reads(d: Buf, n: nat) {
    d != [] && (forall i | 0 <= i < |d| :: IsDigit(d[i])) && DecimalValue(d) == n <= U64_MAX
  }

  lemma DigitsAreText(d: Buf)
    requires forall i | 0 <= i < |d| :: IsDigit(d[i])
    ensures IsText(d) && AMPERSAND !in AFTER + d && (AFTER + d)[|AFTER|..] == d
  {
  }

  /** A request has a cursor exactly when it names one once, by one route, in
      digits; without either route the cursor is zero. */
  lemma CursorIsExact(query: Option<Buf>, headers: seq<Buf>, n: nat)
    ensures EventCursor(query, headers) == Ok(n) <==>
      || (query == None && headers == [] && n == 0)
      || (query == None && |headers| == 1 && Reads(headers[0], n))
      || (query.Some? && headers == [] && AFTER <= query.value && Reads(query.value[|AFTER|..], n))
  {
  }

  /** How often a request names a cursor; the query counts when it can be read. */
  function Named(query: Option<Buf>, headers: seq<Buf>): nat {
    |headers| + if query == None then 0 else AfterFields(Fields(query.value))
  }

  /** A conflict is only reported to a request that names more than one cursor,
      and always when its query is a single field and its first header is text. */
  lemma ConflictNamesTwo(query: Option<Buf>, headers: seq<Buf>)
    ensures EventCursor(query, headers) == Err(ConflictingCursor) ==> Named(query, headers) > 1
    ensures Named(query, headers) > 1 && QueryCursor(query).Ok? && (headers != [] ==> IsText(headers[0])) ==>
      EventCursor(query, headers) == Err(ConflictingCursor)
    ensures query.Some? && AfterFields(Fields(query.value)) > 1 ==> EventCursor(query, headers) == Err(ConflictingCursor)
  {
    if query.Some? {
      var fs := Fields(query.value);
      assert |fs| == 1 ==> fs[1..] == [] && AfterFields(fs) == if AFTER <= fs[0] then 1 else 0;
    }
  }

  // ---- the stream ---------------------------------------------------------

  datatype Frame = Frame(id: Buf, event: Event)

  function SseFrame(e: Event): Option<Frame> {
    if e.seqNo > MAX_SAFE_INTEGER || e.id == None then None else Some(Frame(Decimal(e.seqNo), e))
  }

  /** The stream's state and everything it has yielded. `failed` counts the
      frames that could not be built. */
  datatype Reader = Reader(last: nat, buffer: seq<Event>, open: bool, delivered: seq<Frame>, failed: nat)

  /** One turn of the stream's loop against the log it finds. */
  ghost function Turned(r: Rules, s: Reader, log: Log, permitted: bool, readable: bool): Reader {
    if !s.open then s
    else if !permitted then s.(open := false)
    else if s.buffer != [] then
      var e := s.buffer[0];
      var next := s.(last := e.seqNo, buffer := s.buffer[1..]);
      (match SseFrame(e)
       case Some(f) => next.(delivered := s.delivered + [f])
       case None => next.(failed := s.failed + 1))
    else if !readable then s.(open := false)
    else
      var batch := ListAfter(log, s.last, REPLAY_BATCH_SIZE);
      if batch == [] then s
      else if s.last < U64_MAX && Consecutive(r, s.last, batch) then s.(buffer := batch)
      else s.(open := false)
  }

  class Stream {
    var last: nat
    var buffer: seq<Event>
    var open: bool
    var delivered: seq<Frame>
    var failed: nat

    constructor (after: nat, initial: seq<Event>)
      ensures State() == Reader(after, initial, true, [], 0)
    {
      last, buffer, open, delivered, failed := after, initial, true, [], 0;
    }

    ghost function State(): Reader
      reads this
    {
      Reader(last, buffer, open, delivered, failed)
    }

    method Turn(r: Rules, log: Log, permitted: bool, readable: bool)
      requires last <= U64_MAX
      modifies this
      ensures State() == Turned(r, old(State()), log, permitted, readable)
    {
      if !open { return; }
      if !permitted {
        open := false;
        return;
      }
      if buffer != [] {
        var event := buffer[0];
        buffer := buffer[1..];
        var frame := SseFrame(event);
        last := event.seqNo;
        if frame.Some? { delivered := delivered + [frame.value]; } else { failed := failed + 1; }
        return;
      }
      if !readable {
        open := false;
        return;
      }
      var batch := ListAfter(log, last, REPLAY_BATCH_SIZE);
      if batch != [] {
        var checked := ValidateBatch(r, last, batch);
        if checked.Err? {
          open := false;
          return;
        }
        buffer := buffer + batch;
      }
    }
  }

  // ---- runs ---------------------------------------------------------------

  /** `history` holds every event ever appended; rows may leave the log. */
  datatype World = World(reader: Reader, log: Log, history: seq<Event>)

  datatype Step =
    | Append(e: Event)
    | Remove(k: nat)
    | Turn(permitted: bool, readable: bool)

  ghost function Do(r: Rules, w: World, step: Step): World {
    match step
    case Append(e) =>
      if Latest(w.history) < e.seqNo <= U64_MAX then w.(log := w.log + [e], history := w.history + [e]) else w
    case Remove(k) => if k < |w.log| then w.(log := w.log[..k] + w.log[k + 1..]) else w
    case Turn(permitted, readable) => w.(reader := Turned(r, w.reader, w.log, permitted, readable))
  }

  ghost function Run(r: Rules, w: World, steps: seq<Step>): World
    decreases |steps|
  {
    if steps == [] then w else Run(r, Do(r, w, steps[0]), steps[1..])
  }

  ghost predicate Among(events: seq<Event>, history: seq<Event>) { forall e | e in events :: e in history }

  /** Frame `i` carries event `after + 1 + i` of the history under its printed
      sequence. */
  ghost predicate Gapless(r: Rules, after: nat, frames: seq<Frame>, history: seq<Event>) {
    forall i | 0 <= i < |frames| :: FrameIs(r, frames[i], after + 1 + i, history)
  }

  ghost predicate FrameIs(r: Rules, f: Frame, n: nat, history: seq<Event>) {
    f.event.seqNo == n && ValidEvent(r, f.event) && f.event in history && f.id == Decimal(n)
  }

  ghost predicate ReaderOk(r: Rules, after: nat, s: Reader, history: seq<Event>) {
    && s.last == after + |s.delivered|
    && Gapless(r, after, s.delivered, history)
    && Consecutive(r, s.last, s.buffer) && Among(s.buffer, history)
    && s.failed == 0
  }

  ghost predicate LogOk(log: Log, history: seq<Event>) {
    Ordered(log) && Ordered(history) && Among(log, history) && Latest(log) <= Latest(history)
  }

  ghost predicate Inv(r: Rules, after: nat, w: World) {
    LogOk(w.log, w.history) && ReaderOk(r, after, w.reader, w.history)
  }

  lemma RemoveOk(log: Log, k: nat)
    requires Ordered(log) && k < |log|
    ensures var cut := log[..k] + log[k + 1..];
      Ordered(cut) && Among(cut, log) && Latest(cut) <= Latest(log)
  {
  }

  lemma AppendOk(log: Log, history: seq<Event>, e: Event)
    requires LogOk(log, history) && Latest(history) < e.seqNo <= U64_MAX
    ensures LogOk(log + [e], history + [e])
  {
  }

  lemma ReaderGrows(r: Rules, after: nat, s: Reader, history: seq<Event>, e: Event)
    requires ReaderOk(r, after, s, history)
    ensures ReaderOk(r, after, s, history + [e])
  {
  }

  lemma TurnOk(r: Rules, after: nat, s: Reader, log: Log, history: seq<Event>, permitted: bool, readable: bool)
    requires LogOk(log, history) && ReaderOk(r, after, s, history)
    ensures ReaderOk(r, after, Turned(r, s, log, permitted, readable), history)
  {
  }

  lemma StepOk(r: Rules, after: nat, w: World, step: Step)
    requires Inv(r, after, w)
    ensures Inv(r, after, Do(r, w, step))
  {
    match step
    case Append(e) =>
      if Latest(w.history) < e.seqNo <= U64_MAX {
        AppendOk(w.log, w.history, e);
        ReaderGrows(r, after, w.reader, w.history, e);
      }
    case Remove(k) => if k < |w.log| { RemoveOk(w.log, k); }
    case Turn(permitted, readable) => TurnOk(r, after, w.reader, w.log, w.history, permitted, readable);
  }

  /** Over every interleaving of appends, row removal and polls, a stream
      opened after a cursor yields exactly the events after it, in order and
      without gap or repeat, and never an unbuildable frame. */
  lemma {:induction false} StreamIsGapless(r: Rules, after: nat, w: World, steps: seq<Step>)
    requires Inv(r, after, w)
    ensures Inv(r, after, Run(r, w, steps))
    decreases |steps|
  {
    if steps != [] {
      StepOk(r, after, w, steps[0]);
      StreamIsGapless(r, after, Do(r, w, steps[0]), steps[1..]);
    }
  }

  /** A preflight that accepts opens such a stream. */
  lemma PreflightOpens(r: Rules, log: Log, history: seq<Event>, after: nat, initial: seq<Event>)
    requires LogOk(log, history) && initial == log[FirstAfter(log, after)..] && Consecutive(r, after, initial)
    ensures Inv(r, after, Opening(after, initial, log, history))
  {
  }

  lemma {:induction false} HistoryGrows(r: Rules, w: World, steps: seq<Step>)
    ensures w.history <= Run(r, w, steps).history
    decreases |steps|
  {
    if steps != [] { HistoryGrows(r, Do(r, w, steps[0]), steps[1..]); }
  }

  /** A stream opened after a cursor on the log and history it finds. */
  function Opening(after: nat, initial: seq<Event>, log: Log, history: seq<Event>): World {
    World(Reader(after, initial, true, [], 0), log, history)
  }

  /** The printed id of the last frame received is the cursor right after it,
      and the second connection's frames go on from there. */
  ghost predicate GoesOn(r: Rules, after: nat, d: seq<Frame>, u: World) {
    d != [] && EventCursor(None, [d[|d| - 1].id]) == Ok(after + |d|) && Gapless(r, after, d + u.reader.delivered, u.history)
  }

  /** Reconnecting with the printed id of the last frame received, which may be
      short of the last one sent, continues the same stream: the frames received
      on both connections are one gapless run of the history, whatever happened
      to the log in between. */
  lemma ReconnectContinues(
    r: Rules, after: nat, w: World, steps: seq<Step>, k: nat, initial: seq<Event>, later: seq<Step>)
    requires Inv(r, after, w)
    requires var t := Run(r, w, steps);
      && 0 < k <= |t.reader.delivered|
      && initial == t.log[FirstAfter(t.log, after + k)..] && Consecutive(r, after + k, initial)
    ensures var t := Run(r, w, steps);
      GoesOn(r, after, t.reader.delivered[..k], Run(r, Opening(after + k, initial, t.log, t.history), later))
  {
    StreamIsGapless(r, after, w, steps);
    ReconnectAt(r, after, Run(r, w, steps), k, initial, later);
  }

  lemma ReconnectAt(r: Rules, after: nat, t: World, k: nat, initial: seq<Event>, later: seq<Step>)
    requires Inv(r, after, t) && 0 < k <= |t.reader.delivered|
    requires initial == t.log[FirstAfter(t.log, after + k)..] && Consecutive(r, after + k, initial)
    ensures GoesOn(r, after, t.reader.delivered[..k], Run(r, Opening(after + k, initial, t.log, t.history), later))
  {
    FrontGapless(r, after, t.reader.delivered, t.history, k);
    ReconnectFrom(r, after, t.reader.delivered[..k], t.log, t.history, initial, later);
  }

  lemma FrontGapless(r: Rules, after: nat, d: seq<Frame>, history: seq<Event>, k: nat)
    requires Gapless(r, after, d, history) && k <= |d|
    ensures Gapless(r, after, d[..k], history)
  {
  }

  lemma ReconnectFrom(
    r: Rules, after: nat, d: seq<Frame>, log: Log, history: seq<Event>, initial: seq<Event>, later: seq<Step>)
    requires LogOk(log, history) && d != [] && Gapless(r, after, d, history)
    requires initial == log[FirstAfter(log, after + |d|)..] && Consecutive(r, after + |d|, initial)
    ensures GoesOn(r, after, d, Run(r, Opening(after + |d|, initial, log, history), later))
  {
    Opened(r, after + |d|, log, history, initial, later);
    JoinsOn(r, after, d, history, Run(r, Opening(after + |d|, initial, log, history), later));
  }

  lemma JoinsOn(r: Rules, after: nat, d: seq<Frame>, history: seq<Event>, u: World)
    requires d != [] && Gapless(r, after, d, history)
    requires Gapless(r, after + |d|, u.reader.delivered, u.history) && history <= u.history
    ensures GoesOn(r, after, d, u)
  {
    LastFrame(r, after, d, history);
    CursorRoundTrip(after + |d|);
    GaplessJoin(r, after, d, history, u.reader.delivered, u.history);
  }

  lemma Opened(r: Rules, after: nat, log: Log, history: seq<Event>, initial: seq<Event>, later: seq<Step>)
    requires LogOk(log, history) && initial == log[FirstAfter(log, after)..] && Consecutive(r, after, initial)
    ensures var u := Run(r, Opening(after, initial, log, history), later);
      Gapless(r, after, u.reader.delivered, u.history) && history <= u.history
  {
    PreflightOpens(r, log, history, after, initial);
    StreamIsGapless(r, after, Opening(after, initial, log, history), later);
    HistoryGrows(r, Opening(after, initial, log, history), later);
  }

  lemma LastFrame(r: Rules, after: nat, d: seq<Frame>, history: seq<Event>)
    requires d != [] && Gapless(r, after, d, history)
    ensures d[|d| - 1].id == Decimal(after + |d|) && after + |d| <= U64_MAX
  {
  }

  lemma GaplessJoin(r: Rules, after: nat, d: seq<Frame>, hd: seq<Event>, e: seq<Frame>, he: seq<Event>)
    requires Gapless(r, after, d, hd) && Gapless(r, after + |d|, e, he) && hd <= he
    ensures Gapless(r, after, d + e, he)
  {
  }
}
