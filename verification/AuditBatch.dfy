/** Audit batches: a contiguous run of ledger events committed to one Merkle
    root, chained to the batch before it by that batch's root. */
module AuditBatch {
  import opened Bytes
  import opened Merkle

  const SCHEMA_VERSION: Buf := Ascii("v1alpha1")
  const UNSIGNED: Buf := Ascii("unsigned")
  const UNANCHORED: Buf := Ascii("unanchored")
  const EVENT_DOMAIN: Buf := Ascii("bullet-kernel.audit-batch.ledger-event.v1")
  const ID_DOMAIN: Buf := Ascii("bullet-kernel.audit-batch.id.v1")
  const ID_PREFIX: Buf := Ascii("audit-batch_")

  type U64 = n: nat | n <= U64_MAX

  datatype Event = Event(seqNo: U64, at: Buf, kind: Buf, body: Buf, eventId: Option<Buf>, streamId: Option<Buf>,
                         sequence: Option<U64>, causation: Option<Buf>, correlation: Option<Buf>, token: Option<Buf>)

  datatype Batch = Batch(schema: Buf, id: Buf, first: U64, last: U64, previousRoot: Buf, merkleRoot: Buf,
                         signer: Buf, anchor: Buf)

  datatype Error =
    | Empty | LeafOrder | SequenceGap | Truncated | RangeMismatch | RangeInvalid | SchemaVersion
    | SignerUnsupported | AnchorUnsupported | MalformedRoot | RootMismatch | IdMismatch
    | PreviousRootMismatch | ChainShape | Inclusion(proof: ProofError)

  datatype Result<+T> = Ok(value: T) | Err(error: Error)

  // ---- event leaves -------------------------------------------------------

  predicate EventFits(e: Event) {
    && Fits(e.at) && Fits(e.kind) && Fits(e.body)
    && FitsText(e.eventId) && FitsText(e.streamId) && FitsText(SequenceText(e.sequence))
    && FitsText(e.causation) && FitsText(e.correlation) && FitsText(e.token)
  }

  function SequenceText(n: Option<U64>): Option<Buf> {
    if n.None? then None else Some(Decimal(n.value))
  }

  function TextColumns(e: Event): Buf {
    FrameText(e.eventId) + (FrameText(e.streamId) + (FrameText(SequenceText(e.sequence))
    + (FrameText(e.causation) + (FrameText(e.correlation) + (FrameText(e.token) + [])))))
  }

  function EventBytes(e: Event): Buf {
    Frame(EVENT_DOMAIN) + (Frame(Le(e.seqNo, 8)) + (Frame(e.at) + (Frame(e.kind) + (Frame(e.body) + TextColumns(e)))))
  }

  function EventInput(e: Event): Buf { LeafInput(EventBytes(e)) }
  function EventLeaf(h: Hash, e: Event): Digest { h(EventInput(e)) }

  function EventLeaves(h: Hash, events: seq<Event>): (leaves: Level)
    ensures |leaves| == |events|
    ensures forall i | 0 <= i < |events| :: leaves[i] == EventLeaf(h, events[i])
  {
    if events == [] then []
    else
      var front, last := events[..|events| - 1], EventLeaf(h, events[|events| - 1]);
      assert forall i | 0 <= i < |front| :: front[i] == events[i];
      EventLeaves(h, front) + [last]
  }

  lemma SequenceTextBinds(a: Option<U64>, b: Option<U64>)
    requires SequenceText(a) == SequenceText(b)
    ensures a == b
  {
    if a.Some? { DecimalInjective(a.value, b.value); }
  }

  lemma TextColumnsBind(a: Event, b: Event)
    requires EventFits(a) && EventFits(b) && TextColumns(a) == TextColumns(b)
    ensures a.eventId == b.eventId && a.streamId == b.streamId && a.sequence == b.sequence
    ensures a.causation == b.causation && a.correlation == b.correlation && a.token == b.token
  {
    var a6, b6 := FrameText(a.token) + [], FrameText(b.token) + [];
    var a5, b5 := FrameText(a.correlation) + a6, FrameText(b.correlation) + b6;
    var a4, b4 := FrameText(a.causation) + a5, FrameText(b.causation) + b5;
    var a3, b3 := FrameText(SequenceText(a.sequence)) + a4, FrameText(SequenceText(b.sequence)) + b4;
    var a2, b2 := FrameText(a.streamId) + a3, FrameText(b.streamId) + b3;
    FrameTextCancel(a.eventId, a2, b.eventId, b2);
    FrameTextCancel(a.streamId, a3, b.streamId, b3);
    FrameTextCancel(SequenceText(a.sequence), a4, SequenceText(b.sequence), b4);
    SequenceTextBinds(a.sequence, b.sequence);
    FrameTextCancel(a.causation, a5, b.causation, b5);
    FrameTextCancel(a.correlation, a6, b.correlation, b6);
    FrameTextCancel(a.token, [], b.token, []);
  }

  /** No column can be altered, dropped or moved without changing the bytes. */
  lemma EventBytesBind(a: Event, b: Event)
    requires EventFits(a) && EventFits(b) && EventBytes(a) == EventBytes(b)
    ensures a == b
  {
    var a4, b4 := Frame(a.body) + TextColumns(a), Frame(b.body) + TextColumns(b);
    var a3, b3 := Frame(a.kind) + a4, Frame(b.kind) + b4;
    var a2, b2 := Frame(a.at) + a3, Frame(b.at) + b3;
    FrameCancel(EVENT_DOMAIN, Frame(Le(a.seqNo, 8)) + a2, EVENT_DOMAIN, Frame(Le(b.seqNo, 8)) + b2);
    FrameCancel(Le(a.seqNo, 8), a2, Le(b.seqNo, 8), b2);
    FrameCancel(a.at, a3, b.at, b3);
    FrameCancel(a.kind, a4, b.kind, b4);
    FrameCancel(a.body, TextColumns(a), b.body, TextColumns(b));
    TextColumnsBind(a, b);
    Pow256Eight();
    LeRoundTrip(a.seqNo, 8);
    LeRoundTrip(b.seqNo, 8);
  }

  predicate LeafFits(e: Event) { EventFits(e) && Fits(EventBytes(e)) }

  lemma EventInputBinds(a: Event, b: Event)
    requires LeafFits(a) && LeafFits(b) && EventInput(a) == EventInput(b)
    ensures a == b
  {
    var x, y := [LEAF_DOMAIN, EventBytes(a)], [LEAF_DOMAIN, EventBytes(b)];
    FrameAllInjective(x, y);
    assert x[1] == y[1];
    EventBytesBind(a, b);
  }

  // ---- ranges -------------------------------------------------------------

  predicate Rising(events: seq<Event>) {
    forall i | 0 < i < |events| :: events[i - 1].seqNo < events[i].seqNo
  }

  predicate Contiguous(events: seq<Event>) {
    forall i | 0 < i < |events| :: events[i].seqNo == events[i - 1].seqNo + 1
  }

  /** Order violations take precedence over gaps. */
  function Range(events: seq<Event>): Result<(nat, nat)> {
    if events == [] then Err(Error.Empty)
    else if !Rising(events) then Err(LeafOrder)
    else if !Contiguous(events) then Err(SequenceGap)
    else Ok((events[0].seqNo, events[|events| - 1].seqNo))
  }

  method ContiguousRange(events: seq<Event>) returns (r: Result<(nat, nat)>)
    ensures r == Range(events)
  {
    if events == [] { return Err(Error.Empty); }
    for i := 1 to |events|
      invariant forall k | 0 < k < i :: events[k - 1].seqNo < events[k].seqNo
    {
      if events[i].seqNo <= events[i - 1].seqNo { return Err(LeafOrder); }
    }
    for i := 1 to |events|
      invariant forall k | 0 < k < i :: events[k].seqNo == events[k - 1].seqNo + 1
    {
      if events[i].seqNo != events[i - 1].seqNo + 1 { return Err(SequenceGap); }
    }
    return Ok((events[0].seqNo, events[|events| - 1].seqNo));
  }

  lemma {:induction false} ContiguousAt(events: seq<Event>, i: nat)
    requires Contiguous(events) && i < |events|
    ensures events[i].seqNo == events[0].seqNo + i
  {
    if i > 0 { ContiguousAt(events, i - 1); }
  }

  lemma ContiguousJoin(a: seq<Event>, b: seq<Event>)
    requires a != [] && b != []
    ensures Contiguous(a + b) <==> Contiguous(a) && Contiguous(b) && b[0].seqNo == a[|a| - 1].seqNo + 1
  {
    var s := a + b;
    if Contiguous(s) {
      assert s[|a|] == b[0] && s[|a| - 1] == a[|a| - 1];
      forall i | 0 < i < |a|
        ensures a[i].seqNo == a[i - 1].seqNo + 1
      {
        assert s[i] == a[i] && s[i - 1] == a[i - 1];
      }
      forall i | 0 < i < |b|
        ensures b[i].seqNo == b[i - 1].seqNo + 1
      {
        var k := |a| + i;
        assert s[k] == b[i] && s[k - 1] == b[i - 1];
      }
    }
    if Contiguous(a) && Contiguous(b) && b[0].seqNo == a[|a| - 1].seqNo + 1 {
      forall i | 0 < i < |s|
        ensures s[i].seqNo == s[i - 1].seqNo + 1
      {
        if i > |a| {
          var k := i - |a|;
          assert s[i] == b[k] && s[i - 1] == b[k - 1];
        }
      }
    }
  }

  // ---- one batch ----------------------------------------------------------

  predicate ValidRoot(r: Buf) { |r| == 64 && forall i | 0 <= i < |r| :: LowerHex(r[i]) }

  function IdInput(previous: Buf, root: Buf, first: nat, last: nat): Buf {
    FrameAll([ID_DOMAIN, previous, root, Le(first, 8), Le(last, 8)])
  }

  function BatchId(h: Hash, previous: Buf, root: Buf, first: nat, last: nat): Buf {
    ID_PREFIX + ToHex(h(IdInput(previous, root, first, last)))
  }

  function RootOf(h: Hash, events: seq<Event>): Buf
    requires events != []
  {
    ToHex(Root(h, EventLeaves(h, events)))
  }

  function Build(h: Hash, previous: Buf, events: seq<Event>): Result<Batch> {
    match Range(events)
    case Err(e) => Err(e)
    case Ok((first, last)) =>
      var root := RootOf(h, events);
      Ok(Batch(SCHEMA_VERSION, BatchId(h, previous, root, first, last), first, last, previous, root, UNSIGNED, UNANCHORED))
  }

  function RecordError(b: Batch): Option<Error> {
    if b.schema != SCHEMA_VERSION then Some(SchemaVersion)
    else if b.signer != UNSIGNED then Some(SignerUnsupported)
    else if b.anchor != UNANCHORED then Some(AnchorUnsupported)
    else if !ValidRoot(b.previousRoot) || !ValidRoot(b.merkleRoot) then Some(MalformedRoot)
    else if b.first > b.last then Some(RangeInvalid)
    else None
  }

  function BatchError(h: Hash, b: Batch, events: seq<Event>): Option<Error> {
    match RecordError(b)
    case Some(e) => Some(e)
    case None =>
      match Range(events)
      case Err(e) => Some(e)
      case Ok((first, last)) =>
        if first == b.first && |events| < b.last - b.first + 1 then Some(Truncated)
        else if first != b.first || last != b.last then Some(RangeMismatch)
        else if RootOf(h, events) != b.merkleRoot then Some(Error.RootMismatch)
        else if BatchId(h, b.previousRoot, b.merkleRoot, b.first, b.last) != b.id then Some(IdMismatch)
        else None
  }

  predicate Verified(h: Hash, b: Batch, events: seq<Event>) { BatchError(h, b, events) == None }

  lemma RootOfValid(h: Hash, events: seq<Event>)
    requires events != []
    ensures ValidRoot(RootOf(h, events))
  {
  }

  lemma RangeLength(events: seq<Event>)
    requires Range(events).Ok?
    ensures events != [] && Contiguous(events)
    ensures Range(events).value.0 <= Range(events).value.1
    ensures |events| == Range(events).value.1 - Range(events).value.0 + 1
  {
    ContiguousAt(events, |events| - 1);
  }

  lemma BuiltIsVerified(h: Hash, b: Batch, events: seq<Event>)
    requires ValidRoot(b.previousRoot) && Build(h, b.previousRoot, events) == Ok(b)
    ensures Verified(h, b, events)
  {
    RangeLength(events);
    RootOfValid(h, events);
  }

  /** The verifier accepts exactly what the builder makes. */
  lemma VerifiedIsBuilt(h: Hash, b: Batch, events: seq<Event>)
    ensures Verified(h, b, events) <==> ValidRoot(b.previousRoot) && Build(h, b.previousRoot, events) == Ok(b)
  {
    if ValidRoot(b.previousRoot) && Build(h, b.previousRoot, events) == Ok(b) { BuiltIsVerified(h, b, events); }
  }

  lemma VerifiedRange(h: Hash, b: Batch, events: seq<Event>)
    requires Verified(h, b, events)
    ensures events != [] && Contiguous(events) && ValidRoot(b.previousRoot) && ValidRoot(b.merkleRoot)
    ensures events[0].seqNo == b.first && events[|events| - 1].seqNo == b.last && |events| == b.last - b.first + 1
    ensures b.merkleRoot == RootOf(h, events)
  {
    ContiguousAt(events, |events| - 1);
  }

  ghost function EventInputs(events: seq<Event>): set<Buf> { set i | 0 <= i < |events| :: EventInput(events[i]) }

  ghost function BatchInputs(h: Hash, events: seq<Event>): set<Buf> {
    EventInputs(events) + NodeInputs(h, EventLeaves(h, events))
  }

  ghost predicate AllFit(events: seq<Event>) { forall i | 0 <= i < |events| :: LeafFits(events[i]) }

  lemma LeavesBind(h: Hash, a: seq<Event>, b: seq<Event>)
    requires AllFit(a) && AllFit(b) && EventLeaves(h, a) == EventLeaves(h, b)
    requires CollisionFreeOn(h, EventInputs(a) + EventInputs(b))
    ensures a == b
  {
    assert |a| == |EventLeaves(h, a)| == |b|;
    forall i | 0 <= i < |a|
      ensures a[i] == b[i]
    {
      assert EventLeaves(h, a)[i] == EventLeaves(h, b)[i];
      assert EventInput(a[i]) in EventInputs(a) && EventInput(b[i]) in EventInputs(b);
      EventInputBinds(a[i], b[i]);
    }
  }

  lemma RootOfBinds(h: Hash, x: seq<Event>, y: seq<Event>)
    requires x != [] && |x| == |y| && RootOf(h, x) == RootOf(h, y) && AllFit(x) && AllFit(y)
    requires CollisionFreeOn(h, BatchInputs(h, x) + BatchInputs(h, y))
    ensures x == y
  {
    var all := BatchInputs(h, x) + BatchInputs(h, y);
    ToHexInjective(Root(h, EventLeaves(h, x)), Root(h, EventLeaves(h, y)));
    FewerInputs(h, all, NodeInputs(h, EventLeaves(h, x)) + NodeInputs(h, EventLeaves(h, y)));
    RootBinds(h, EventLeaves(h, x), EventLeaves(h, y));
    FewerInputs(h, all, EventInputs(x) + EventInputs(y));
    LeavesBind(h, x, y);
  }

  /** A batch record commits to one list of events: its range fixes the leaf
      count, so the duplicated-last-leaf trees cannot be confused. */
  lemma BatchBinds(h: Hash, b: Batch, x: seq<Event>, y: seq<Event>)
    requires Verified(h, b, x) && Verified(h, b, y) && AllFit(x) && AllFit(y)
    requires CollisionFreeOn(h, BatchInputs(h, x) + BatchInputs(h, y))
    ensures x == y
  {
    VerifiedRange(h, b, x);
    VerifiedRange(h, b, y);
    RootOfBinds(h, x, y);
  }

  lemma TailRuns(events: seq<Event>, k: nat)
    requires Contiguous(events) && k < |events|
    ensures Contiguous(events[k..]) && Rising(events[k..])
  {
  }

  lemma LostRow(events: seq<Event>, k: nat)
    requires Contiguous(events) && 0 < k < |events| - 1
    ensures var left := events[..k] + events[k + 1..]; left != [] && Rising(left) && !Contiguous(left)
  {
    var left := events[..k] + events[k + 1..];
    forall i | 0 < i < |left|
      ensures left[i - 1].seqNo < left[i].seqNo
    {
      ContiguousAt(events, if i - 1 < k then i - 1 else i);
      ContiguousAt(events, if i < k then i else i + 1);
    }
    ContiguousAt(events, k - 1);
    ContiguousAt(events, k + 1);
    assert left[k] == events[k + 1] && left[k - 1] == events[k - 1];
  }

  lemma LostTail(h: Hash, b: Batch, events: seq<Event>, k: nat)
    requires Verified(h, b, events) && 0 < k < |events|
    ensures BatchError(h, b, events[..k]) == Some(Truncated)
  {
    VerifiedRange(h, b, events);
    ContiguousAt(events, |events| - 1);
    assert Contiguous(events[..k]) && Rising(events[..k]);
  }

  lemma LostHead(h: Hash, b: Batch, events: seq<Event>, k: nat)
    requires Verified(h, b, events) && 0 < k < |events|
    ensures BatchError(h, b, events[k..]) == Some(RangeMismatch)
  {
    VerifiedRange(h, b, events);
    ContiguousAt(events, k);
    TailRuns(events, k);
  }

  lemma Altered(h: Hash, b: Batch, events: seq<Event>, other: seq<Event>)
    requires Verified(h, b, events) && Range(other) == Range(events) && other != events
    requires AllFit(events) && AllFit(other) && CollisionFreeOn(h, BatchInputs(h, events) + BatchInputs(h, other))
    ensures BatchError(h, b, other) == Some(Error.RootMismatch)
  {
    VerifiedRange(h, b, events);
    RangeLength(events);
    RangeLength(other);
    OtherRoot(h, events, other);
  }

  lemma OtherRoot(h: Hash, events: seq<Event>, other: seq<Event>)
    requires events != [] && |other| == |events| && other != events && AllFit(events) && AllFit(other)
    requires CollisionFreeOn(h, BatchInputs(h, events) + BatchInputs(h, other))
    ensures RootOf(h, other) != RootOf(h, events)
  {
    if RootOf(h, other) == RootOf(h, events) { RootOfBinds(h, events, other); }
  }

  /** What each way of tampering with a verified batch's events is reported as:
      nothing left, a lost tail, a lost head, a lost row in between, rows out of
      order, and other events in the same range. */
  lemma TamperingIsReported(h: Hash, b: Batch, events: seq<Event>, k: nat, other: seq<Event>)
    requires Verified(h, b, events) && 0 < k < |events|
    requires AllFit(events) && AllFit(other) && CollisionFreeOn(h, BatchInputs(h, events) + BatchInputs(h, other))
    ensures BatchError(h, b, []) == Some(Error.Empty)
    ensures BatchError(h, b, events[..k]) == Some(Truncated)
    ensures BatchError(h, b, events[k..]) == Some(RangeMismatch)
    ensures k + 1 < |events| ==> BatchError(h, b, events[..k] + events[k + 1..]) == Some(SequenceGap)
    ensures other != [] && !Rising(other) ==> BatchError(h, b, other) == Some(LeafOrder)
    ensures Range(other) == Range(events) && other != events ==> BatchError(h, b, other) == Some(Error.RootMismatch)
  {
    LostTail(h, b, events, k);
    LostHead(h, b, events, k);
    VerifiedRange(h, b, events);
    if k + 1 < |events| { LostRow(events, k); }
    if Range(other) == Range(events) && other != events { Altered(h, b, events, other); }
  }

  /** Every column of a verified record is checked, and a changed one is reported
      for what it is; a changed link or id is an id that does not match. */
  lemma AlteredRecordIsReported(h: Hash, b: Batch, events: seq<Event>, x: Buf)
    requires Verified(h, b, events)
    ensures x != b.schema ==> BatchError(h, b.(schema := x), events) == Some(SchemaVersion)
    ensures x != b.signer ==> BatchError(h, b.(signer := x), events) == Some(SignerUnsupported)
    ensures x != b.anchor ==> BatchError(h, b.(anchor := x), events) == Some(AnchorUnsupported)
    ensures x != b.merkleRoot ==>
      BatchError(h, b.(merkleRoot := x), events) == Some(if ValidRoot(x) then Error.RootMismatch else MalformedRoot)
    ensures x != b.id ==> BatchError(h, b.(id := x), events) == Some(IdMismatch)
    ensures x != b.previousRoot && CollisionFreeOn(h, LinkInputs(b, x)) ==>
      BatchError(h, b.(previousRoot := x), events) == Some(if ValidRoot(x) then IdMismatch else MalformedRoot)
  {
    AlteredStatus(h, b, events, x);
    AlteredRoot(h, b, events, x);
    if x != b.previousRoot && CollisionFreeOn(h, LinkInputs(b, x)) { AlteredLink(h, b, events, x); }
  }

  lemma AlteredStatus(h: Hash, b: Batch, events: seq<Event>, x: Buf)
    requires Verified(h, b, events)
    ensures x != b.schema ==> BatchError(h, b.(schema := x), events) == Some(SchemaVersion)
    ensures x != b.signer ==> BatchError(h, b.(signer := x), events) == Some(SignerUnsupported)
    ensures x != b.anchor ==> BatchError(h, b.(anchor := x), events) == Some(AnchorUnsupported)
  {
  }

  lemma AlteredRoot(h: Hash, b: Batch, events: seq<Event>, x: Buf)
    requires Verified(h, b, events)
    ensures x != b.merkleRoot ==>
      BatchError(h, b.(merkleRoot := x), events) == Some(if ValidRoot(x) then Error.RootMismatch else MalformedRoot)
    ensures x != b.id ==> BatchError(h, b.(id := x), events) == Some(IdMismatch)
  {
  }

  lemma AlteredLink(h: Hash, b: Batch, events: seq<Event>, x: Buf)
    requires Verified(h, b, events) && x != b.previousRoot && CollisionFreeOn(h, LinkInputs(b, x))
    ensures BatchError(h, b.(previousRoot := x), events) == Some(if ValidRoot(x) then IdMismatch else MalformedRoot)
  {
    if ValidRoot(x) { OtherLink(h, b, x); }
  }

  ghost function LinkInputs(b: Batch, x: Buf): set<Buf> {
    {IdInput(b.previousRoot, b.merkleRoot, b.first, b.last), IdInput(x, b.merkleRoot, b.first, b.last)}
  }

  lemma OtherLink(h: Hash, b: Batch, x: Buf)
    requires x != b.previousRoot && ValidRoot(x) && ValidRoot(b.previousRoot) && ValidRoot(b.merkleRoot)
    requires CollisionFreeOn(h, LinkInputs(b, x))
    ensures BatchId(h, x, b.merkleRoot, b.first, b.last) != BatchId(h, b.previousRoot, b.merkleRoot, b.first, b.last)
  {
    if BatchId(h, x, b.merkleRoot, b.first, b.last) == BatchId(h, b.previousRoot, b.merkleRoot, b.first, b.last) {
      BatchIdBinds(h, x, b.merkleRoot, b.first, b.last, b.previousRoot, b.merkleRoot, b.first, b.last);
    }
  }

  /** The batch id commits to the link, the root and the range. */
  lemma BatchIdBinds(h: Hash, p: Buf, r: Buf, f: U64, l: U64, p': Buf, r': Buf, f': U64, l': U64)
    requires Fits(p) && Fits(r) && Fits(p') && Fits(r')
    requires CollisionFreeOn(h, {IdInput(p, r, f, l), IdInput(p', r', f', l')})
    requires BatchId(h, p, r, f, l) == BatchId(h, p', r', f', l')
    ensures p == p' && r == r' && f == f' && l == l'
  {
    var n := |ID_PREFIX|;
    var x, y := h(IdInput(p, r, f, l)), h(IdInput(p', r', f', l'));
    assert BatchId(h, p, r, f, l)[n..] == ToHex(x) && BatchId(h, p', r', f', l')[n..] == ToHex(y);
    ToHexInjective(x, y);
    var a, b := [ID_DOMAIN, p, r, Le(f, 8), Le(l, 8)], [ID_DOMAIN, p', r', Le(f', 8), Le(l', 8)];
    FrameAllInjective(a, b);
    assert a[1] == b[1] && a[2] == b[2] && a[3] == b[3] && a[4] == b[4];
    Pow256Eight();
    LeRoundTrip(f, 8);
    LeRoundTrip(f', 8);
    LeRoundTrip(l, 8);
    LeRoundTrip(l', 8);
  }

  // ---- event inclusion ----------------------------------------------------

  /** What the inclusion verifier accepts for a leaf at a position. */
  ghost predicate Includes(h: Hash, b: Batch, seqNo: nat, leaf: Digest, proof: InclusionProof) {
    && RecordError(b) == None && b.first <= seqNo <= b.last
    && proof.leafIndex == seqNo - b.first && proof.leafCount == b.last - b.first + 1
    && |proof.siblings| == Height(proof.leafCount)
    && ToHex(Climb(h, leaf, proof.leafIndex, proof.siblings)) == b.merkleRoot
  }

  lemma OwnProof(h: Hash, b: Batch, events: seq<Event>, seqNo: nat)
    requires Verified(h, b, events) && b.first <= seqNo <= b.last
    ensures events != [] && seqNo - b.first < |events|
    ensures var i, leaves := seqNo - b.first, EventLeaves(h, events);
      Includes(h, b, seqNo, EventLeaf(h, events[i]), InclusionProof(i, |leaves|, Siblings(h, leaves, i)))
  {
    VerifiedRange(h, b, events);
    ProofIsAccepted(h, EventLeaves(h, events), seqNo - b.first);
  }

  method ProveEvent(h: Hash, b: Batch, events: seq<Event>, seqNo: U64) returns (r: Result<InclusionProof>)
    ensures r.Ok? <==> Verified(h, b, events) && b.first <= seqNo <= b.last
    ensures r.Ok? ==> Includes(h, b, seqNo, EventLeaf(h, events[seqNo - b.first]), r.value)
    ensures r.Err? ==> Some(r.error) == if Verified(h, b, events) then Some(RangeMismatch) else BatchError(h, b, events)
  {
    var failure := BatchError(h, b, events);
    if failure.Some? { return Err(failure.value); }
    if seqNo < b.first || b.last < seqNo { return Err(RangeMismatch); }
    OwnProof(h, b, events, seqNo);
    var leaves := EventLeaves(h, events);
    var levels := FromLeaves(h, leaves);
    var proof := Prove(h, leaves, levels, seqNo - b.first);
    return Ok(proof.value);
  }

  method VerifyEventInclusion(h: Hash, b: Batch, e: Event, proof: InclusionProof) returns (out: Option<Error>)
    ensures out == None <==> Includes(h, b, e.seqNo, EventLeaf(h, e), proof)
    ensures RecordError(b) == None ==>
      (out == Some(RangeMismatch) <==>
         !(b.first <= e.seqNo <= b.last && proof.leafIndex == e.seqNo - b.first && proof.leafCount == b.last - b.first + 1))
  {
    var failure := RecordError(b);
    if failure.Some? { return failure; }
    if e.seqNo < b.first || b.last < e.seqNo { return Some(RangeMismatch); }
    if proof.leafIndex != e.seqNo - b.first || proof.leafCount != b.last - b.first + 1 { return Some(RangeMismatch); }
    var root := FromHex(b.merkleRoot);
    var refused := VerifyInclusion(h, root, EventLeaf(h, e), proof);
    var climbed := Climb(h, EventLeaf(h, e), proof.leafIndex, proof.siblings);
    if ToHex(climbed) == ToHex(root) { ToHexInjective(climbed, root); }
    return if refused.Some? then Some(Inclusion(refused.value)) else None;
  }

  lemma ClimbToRoot(h: Hash, events: seq<Event>, e: Event, i: nat, siblings: Level)
    requires i < |events| && AllFit(events) && LeafFits(e) && |siblings| == Height(|events|)
    requires ToHex(Climb(h, EventLeaf(h, e), i, siblings)) == RootOf(h, events)
    requires CollisionFreeOn(h, BatchInputs(h, events) + {EventInput(e)} + ClimbInputs(h, EventLeaf(h, e), i, siblings))
    ensures events[i] == e
  {
    var leaves, leaf := EventLeaves(h, events), EventLeaf(h, e);
    var climb := ClimbInputs(h, leaf, i, siblings);
    ToHexInjective(Climb(h, leaf, i, siblings), Root(h, leaves));
    FewerInputs(h, BatchInputs(h, events) + {EventInput(e)} + climb, NodeInputs(h, leaves) + climb);
    ProofBinds(h, leaves, leaf, i, siblings);
    assert EventInput(events[i]) in EventInputs(events);
    EventInputBinds(events[i], e);
  }

  /** An event accepted against a verified batch is the event at its place. */
  lemma InclusionBinds(h: Hash, b: Batch, events: seq<Event>, e: Event, proof: InclusionProof)
    requires Verified(h, b, events) && AllFit(events) && LeafFits(e)
    requires Includes(h, b, e.seqNo, EventLeaf(h, e), proof)
    requires CollisionFreeOn(h, BatchInputs(h, events) + {EventInput(e)}
                                + ClimbInputs(h, EventLeaf(h, e), proof.leafIndex, proof.siblings))
    ensures e.seqNo - b.first < |events| && events[e.seqNo - b.first] == e
  {
    VerifiedRange(h, b, events);
    ClimbToRoot(h, events, e, proof.leafIndex, proof.siblings);
  }
}
