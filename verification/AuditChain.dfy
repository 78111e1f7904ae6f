/** Chains of audit batches: the chain verifier, the builder folded over
    consecutive segments, and what an accepted chain commits to. */
module AuditChain {
  import opened Bytes
  import opened Merkle
  import opened AuditBatch

  const GENESIS_ROOT: Buf := seq(64, _ => 48)

  type Segments = seq<seq<Event>>

  datatype ChainHead = ChainHead(count: nat, headRoot: Buf, last: nat)

  /** One turn of the chain loop: the batch's own error, then its link. */
  function LinkError(h: Hash, b: Batch, events: seq<Event>, expected: Buf, next: Option<nat>): Option<Error> {
    match BatchError(h, b, events)
    case Some(e) => Some(e)
    case None =>
      if b.previousRoot != expected then Some(PreviousRootMismatch)
      else if next.Some? && b.first < next.value then Some(LeafOrder)
      else if next.Some? && b.first > next.value then Some(SequenceGap)
      else None
  }

  function RootBefore(head: Buf, batches: seq<Batch>, k: nat): Buf
    requires k <= |batches|
  {
    if k == 0 then head else batches[k - 1].merkleRoot
  }

  function NextBefore(batches: seq<Batch>, k: nat): Option<nat>
    requires k <= |batches|
  {
    if k == 0 then None else Some(batches[k - 1].last + 1)
  }

  function ErrorAt(h: Hash, head: Buf, batches: seq<Batch>, segments: Segments, k: nat): Option<Error>
    requires |batches| == |segments| && k < |batches|
  {
    LinkError(h, batches[k], segments[k], RootBefore(head, batches, k), NextBefore(batches, k))
  }

  predicate Holds(h: Hash, head: Buf, batches: seq<Batch>, segments: Segments) {
    && ValidRoot(head) && |batches| == |segments| && batches != []
    && forall k | 0 <= k < |batches| :: ErrorAt(h, head, batches, segments, k) == None
  }

  ghost predicate FirstErrorAt(h: Hash, head: Buf, batches: seq<Batch>, segments: Segments, k: nat, e: Error)
    requires |batches| == |segments|
  {
    && k < |batches| && ErrorAt(h, head, batches, segments, k) == Some(e)
    && forall j | 0 <= j < k :: ErrorAt(h, head, batches, segments, j) == None
  }

  ghost predicate RefusedBy(h: Hash, head: Buf, batches: seq<Batch>, segments: Segments, e: Error) {
    if !ValidRoot(head) then e == MalformedRoot
    else if |batches| != |segments| then e == ChainShape
    else if batches == [] then e == Error.Empty
    else exists k: nat :: FirstErrorAt(h, head, batches, segments, k, e)
  }

  /** The first k batches hold. */
  ghost predicate HoldTo(h: Hash, head: Buf, batches: seq<Batch>, segments: Segments, k: nat)
    requires |batches| == |segments| && k <= |batches|
  {
    forall j | 0 <= j < k :: ErrorAt(h, head, batches, segments, j) == None
  }

  /** The first batch that does not hold decides the answer. */
  lemma TurnDecides(h: Hash, head: Buf, batches: seq<Batch>, segments: Segments, k: nat, failure: Option<Error>)
    requires ValidRoot(head) && |batches| == |segments| && k < |batches| && HoldTo(h, head, batches, segments, k)
    requires failure == ErrorAt(h, head, batches, segments, k)
    ensures failure == None ==> HoldTo(h, head, batches, segments, k + 1)
    ensures failure.Some? ==>
      !Holds(h, head, batches, segments) && RefusedBy(h, head, batches, segments, failure.value)
  {
    if failure.Some? { assert FirstErrorAt(h, head, batches, segments, k, failure.value); }
  }

  method CheckTurn(h: Hash, head: Buf, batches: seq<Batch>, segments: Segments, k: nat, expected: Buf, next: Option<nat>)
    returns (failure: Option<Error>)
    requires ValidRoot(head) && |batches| == |segments| && k < |batches| && HoldTo(h, head, batches, segments, k)
    requires expected == RootBefore(head, batches, k) && next == NextBefore(batches, k)
    ensures failure == None ==> HoldTo(h, head, batches, segments, k + 1)
    ensures failure.Some? ==>
      !Holds(h, head, batches, segments) && RefusedBy(h, head, batches, segments, failure.value)
  {
    failure := LinkError(h, batches[k], segments[k], expected, next);
    TurnDecides(h, head, batches, segments, k, failure);
  }

  lemma AllHold(h: Hash, head: Buf, batches: seq<Batch>, segments: Segments)
    requires ValidRoot(head) && |batches| == |segments| && HoldTo(h, head, batches, segments, |batches|)
    ensures Holds(h, head, batches, segments) <==> batches != []
  {
  }

  method VerifyChainFrom(h: Hash, head: Buf, batches: seq<Batch>, segments: Segments) returns (r: Result<ChainHead>)
    ensures r.Ok? <==> Holds(h, head, batches, segments)
    ensures r.Ok? ==> var b := batches[|batches| - 1]; r.value == ChainHead(|batches|, b.merkleRoot, b.last)
    ensures r.Err? ==> RefusedBy(h, head, batches, segments, r.error)
  {
    if !ValidRoot(head) { return Err(MalformedRoot); }
    if |batches| != |segments| { return Err(ChainShape); }
    var expected, next := head, None;
    for k := 0 to |batches|
      invariant expected == RootBefore(head, batches, k) && next == NextBefore(batches, k)
      invariant HoldTo(h, head, batches, segments, k)
    {
      var failure := CheckTurn(h, head, batches, segments, k, expected, next);
      if failure.Some? { return Err(failure.value); }
      expected, next := batches[k].merkleRoot, Some(batches[k].last + 1);
    }
    AllHold(h, head, batches, segments);
    if batches == [] { return Err(Error.Empty); }
    var last := batches[|batches| - 1];
    return Ok(ChainHead(|batches|, last.merkleRoot, last.last));
  }

  method VerifyChain(h: Hash, batches: seq<Batch>, segments: Segments) returns (r: Result<ChainHead>)
    ensures r.Ok? <==> Holds(h, GENESIS_ROOT, batches, segments)
  {
    r := VerifyChainFrom(h, GENESIS_ROOT, batches, segments);
  }

  // ---- cutting ------------------------------------------------------------

  lemma Front(h: Hash, head: Buf, a: seq<Batch>, b: seq<Batch>, s: Segments, t: Segments, k: nat)
    requires |a| == |s| && |b| == |t| && k < |a|
    ensures ErrorAt(h, head, a + b, s + t, k) == ErrorAt(h, head, a, s, k)
  {
  }

  lemma Back(h: Hash, head: Buf, a: seq<Batch>, b: seq<Batch>, s: Segments, t: Segments, k: nat)
    requires |a| == |s| && |b| == |t| && a != [] && k < |b|
    ensures k > 0 ==>
      ErrorAt(h, head, a + b, s + t, |a| + k) == ErrorAt(h, a[|a| - 1].merkleRoot, b, t, k)
    ensures k == 0 ==>
      ErrorAt(h, head, a + b, s + t, |a|) ==
      LinkError(h, b[0], t[0], a[|a| - 1].merkleRoot, Some(a[|a| - 1].last + 1))
  {
  }

  lemma Continues(h: Hash, b: Batch, events: seq<Event>, root: Buf, next: nat)
    ensures LinkError(h, b, events, root, Some(next)) == None
            <==> LinkError(h, b, events, root, None) == None && b.first == next
  {
  }

  // ---- extending ----------------------------------------------------------

  /** Why a verified batch does not continue a chain that ends with `last`. */
  function Misplaced(last: Batch, b: Batch): Option<Error> {
    if b.previousRoot != last.merkleRoot then Some(PreviousRootMismatch)
    else if b.first <= last.last then Some(LeafOrder)
    else if b.first > last.last + 1 then Some(SequenceGap)
    else None
  }

  lemma ExtensionError(h: Hash, head: Buf, batches: seq<Batch>, segments: Segments, b: Batch, events: seq<Event>)
    requires Holds(h, head, batches, segments) && Verified(h, b, events)
    ensures var all, runs := batches + [b], segments + [events];
      && (forall k | 0 <= k < |batches| :: ErrorAt(h, head, all, runs, k) == None)
      && ErrorAt(h, head, all, runs, |batches|) == Misplaced(batches[|batches| - 1], b)
  {
    forall k | 0 <= k < |batches|
      ensures ErrorAt(h, head, batches + [b], segments + [events], k) == None
    {
      assert ErrorAt(h, head, batches, segments, k) == None;
      Front(h, head, batches, [b], segments, [events], k);
    }
    Back(h, head, batches, [b], segments, [events], 0);
  }

  /** A verified batch extends an accepted chain exactly when it is linked to the
      chain's head and starts right after its last sequence; otherwise the chain
      is refused for the link, for going back, or for the gap, and for nothing
      else. */
  lemma ExtensionIsExact(h: Hash, head: Buf, batches: seq<Batch>, segments: Segments, b: Batch, events: seq<Event>, e: Error)
    requires Holds(h, head, batches, segments) && Verified(h, b, events)
    ensures var last := batches[|batches| - 1];
      && (Holds(h, head, batches + [b], segments + [events]) <==> Misplaced(last, b) == None)
      && (RefusedBy(h, head, batches + [b], segments + [events], e) <==> Misplaced(last, b) == Some(e))
  {
    ExtensionError(h, head, batches, segments, b, events);
    LastDecides(h, head, batches + [b], segments + [events], |batches|, e);
  }

  /** When only the last batch of a chain can be wrong, it decides. */
  lemma LastDecides(h: Hash, head: Buf, batches: seq<Batch>, segments: Segments, n: nat, e: Error)
    requires ValidRoot(head) && |batches| == |segments| == n + 1
    requires HoldTo(h, head, batches, segments, n)
    ensures Holds(h, head, batches, segments) <==> ErrorAt(h, head, batches, segments, n) == None
    ensures RefusedBy(h, head, batches, segments, e) <==> ErrorAt(h, head, batches, segments, n) == Some(e)
  {
    TurnDecides(h, head, batches, segments, n, ErrorAt(h, head, batches, segments, n));
  }

  // ---- joining ------------------------------------------------------------

  lemma LastRootValid(h: Hash, head: Buf, batches: seq<Batch>, segments: Segments)
    requires Holds(h, head, batches, segments)
    ensures ValidRoot(batches[|batches| - 1].merkleRoot)
  {
    var k := |batches| - 1;
    assert ErrorAt(h, head, batches, segments, k) == None;
    VerifiedRange(h, batches[k], segments[k]);
  }

  /** Two fragments join exactly when the second continues the first in both
      root and sequence. */
  lemma ChainJoins(h: Hash, head: Buf, a: seq<Batch>, b: seq<Batch>, s: Segments, t: Segments)
    requires |a| == |s| && |b| == |t| && a != [] && b != []
    ensures Holds(h, head, a + b, s + t) <==>
      && Holds(h, head, a, s)
      && Holds(h, a[|a| - 1].merkleRoot, b, t)
      && b[0].first == a[|a| - 1].last + 1
  {
    var root, next := a[|a| - 1].merkleRoot, a[|a| - 1].last + 1;
    Continues(h, b[0], t[0], root, next);
    if Holds(h, head, a + b, s + t) {
      Cut(h, head, a, b, s, t);
    }
    if Holds(h, head, a, s) && Holds(h, root, b, t) && b[0].first == next {
      Glue(h, head, a, b, s, t);
    }
  }

  lemma Cut(h: Hash, head: Buf, a: seq<Batch>, b: seq<Batch>, s: Segments, t: Segments)
    requires |a| == |s| && |b| == |t| && a != [] && b != [] && Holds(h, head, a + b, s + t)
    ensures Holds(h, head, a, s) && Holds(h, a[|a| - 1].merkleRoot, b, t)
    ensures b[0].first == a[|a| - 1].last + 1
  {
    forall k | 0 <= k < |a|
      ensures ErrorAt(h, head, a, s, k) == None
    {
      Front(h, head, a, b, s, t, k);
      assert ErrorAt(h, head, a + b, s + t, k) == None;
    }
    LastRootValid(h, head, a, s);
    var root := a[|a| - 1].merkleRoot;
    forall k | 0 <= k < |b|
      ensures ErrorAt(h, root, b, t, k) == None
    {
      Back(h, head, a, b, s, t, k);
      assert ErrorAt(h, head, a + b, s + t, |a| + k) == None;
    }
    Back(h, head, a, b, s, t, 0);
    assert ErrorAt(h, head, a + b, s + t, |a|) == None;
  }

  lemma GlueAt(h: Hash, head: Buf, a: seq<Batch>, b: seq<Batch>, s: Segments, t: Segments, k: nat)
    requires |a| == |s| && |b| == |t| && a != [] && k < |b|
    requires ErrorAt(h, a[|a| - 1].merkleRoot, b, t, k) == None && b[0].first == a[|a| - 1].last + 1
    ensures ErrorAt(h, head, a + b, s + t, |a| + k) == None
  {
  }

  lemma GlueEach(h: Hash, head: Buf, a: seq<Batch>, b: seq<Batch>, s: Segments, t: Segments, k: nat)
    requires |a| == |s| && |b| == |t| && a != [] && b != [] && k < |a| + |b|
    requires Holds(h, head, a, s) && Holds(h, a[|a| - 1].merkleRoot, b, t)
    requires b[0].first == a[|a| - 1].last + 1
    ensures ErrorAt(h, head, a + b, s + t, k) == None
  {
    if k < |a| { Front(h, head, a, b, s, t, k); } else { GlueAt(h, head, a, b, s, t, k - |a|); }
  }

  lemma Glue(h: Hash, head: Buf, a: seq<Batch>, b: seq<Batch>, s: Segments, t: Segments)
    requires |a| == |s| && |b| == |t| && a != [] && b != []
    requires Holds(h, head, a, s) && Holds(h, a[|a| - 1].merkleRoot, b, t)
    requires b[0].first == a[|a| - 1].last + 1
    ensures Holds(h, head, a + b, s + t)
  {
    var all, runs := a + b, s + t;
    forall k | 0 <= k < |all|
      ensures ErrorAt(h, head, all, runs, k) == None
    {
      GlueEach(h, head, a, b, s, t, k);
    }
    AllHold(h, head, all, runs);
  }

  // ---- the builder folded over segments -------------------------------------

  function Join(segments: Segments): seq<Event> {
    if segments == [] then [] else Join(segments[..|segments| - 1]) + segments[|segments| - 1]
  }

  function BuildChain(h: Hash, head: Buf, segments: Segments): Result<seq<Batch>> {
    if segments == [] then Ok([])
    else
      match BuildChain(h, head, segments[..|segments| - 1])
      case Err(e) => Err(e)
      case Ok(batches) =>
        match Build(h, RootBefore(head, batches, |batches|), segments[|segments| - 1])
        case Err(e) => Err(e)
        case Ok(b) => Ok(batches + [b])
  }

  ghost predicate FullRun(segments: Segments) {
    segments != [] && Contiguous(Join(segments)) && forall k | 0 <= k < |segments| :: segments[k] != []
  }

  lemma Single(h: Hash, head: Buf, b: Batch, events: seq<Event>)
    ensures Holds(h, head, [b], [events]) <==> ValidRoot(head) && Build(h, head, events) == Ok(b)
  {
    VerifiedIsBuilt(h, b, events);
    var bs, ss := [b], [events];
    assert bs[0] == b && ss[0] == events;
    if Holds(h, head, bs, ss) { assert ErrorAt(h, head, bs, ss, 0) == None; }
  }

  ghost predicate RunFrom(segments: Segments, first: nat, last: nat) {
    && FullRun(segments) && Join(segments) != []
    && Join(segments)[0].seqNo == first && Join(segments)[|Join(segments)| - 1].seqNo == last
  }

  lemma RunOne(t: seq<Event>)
    requires t != [] && Contiguous(t)
    ensures RunFrom([t], t[0].seqNo, t[|t| - 1].seqNo)
  {
  }

  lemma RunMore(s: Segments, t: seq<Event>, first: nat, last: nat)
    requires RunFrom(s, first, last) && t != [] && Contiguous(t) && t[0].seqNo == last + 1
    ensures RunFrom(s + [t], first, t[|t| - 1].seqNo)
  {
  }

  lemma LastRange(h: Hash, head: Buf, batches: seq<Batch>, segments: Segments)
    requires Holds(h, head, batches, segments)
    ensures var b, t := batches[|batches| - 1], segments[|batches| - 1];
      t != [] && Contiguous(t) && t[0].seqNo == b.first && t[|t| - 1].seqNo == b.last
  {
    var n := |batches| - 1;
    assert ErrorAt(h, head, batches, segments, n) == None;
    VerifiedRange(h, batches[n], segments[n]);
  }

  /** What an accepted chain commits to is one gap-free run of events. */
  lemma {:induction false} ChainIsOneRun(h: Hash, head: Buf, batches: seq<Batch>, segments: Segments)
    requires Holds(h, head, batches, segments)
    ensures RunFrom(segments, batches[0].first, batches[|batches| - 1].last)
    decreases |batches|
  {
    var n := |batches| - 1;
    LastRange(h, head, batches, segments);
    if n == 0 {
      RunOne(segments[0]);
      assert segments == [segments[0]];
    } else {
      var a, b, s, t := batches[..n], batches[n], segments[..n], segments[n];
      assert batches == a + [b] && segments == s + [t];
      ChainJoins(h, head, a, [b], s, [t]);
      ChainIsOneRun(h, head, a, s);
      RunMore(s, t, a[0].first, a[n - 1].last);
    }
  }

  lemma {:induction false} HoldsIsBuilt(h: Hash, head: Buf, batches: seq<Batch>, segments: Segments)
    requires Holds(h, head, batches, segments)
    ensures BuildChain(h, head, segments) == Ok(batches)
    decreases |batches|
  {
    var n := |batches| - 1;
    var a, b, s, t := batches[..n], batches[n], segments[..n], segments[n];
    assert batches == a + [b] && segments == s + [t];
    if n == 0 {
      Single(h, head, b, t);
    } else {
      ChainJoins(h, head, a, [b], s, [t]);
      HoldsIsBuilt(h, head, a, s);
      Single(h, a[|a| - 1].merkleRoot, b, t);
    }
  }

  lemma FrontOfRun(s: Segments, t: seq<Event>)
    requires FullRun(s + [t])
    ensures t != [] && Contiguous(t)
    ensures s != [] ==> FullRun(s) && Join(s) != [] && t[0].seqNo == Join(s)[|Join(s)| - 1].seqNo + 1
  {
    var all := s + [t];
    assert all[|s|] == t && all[..|s|] == s;
    if s == [] {
      assert Join(s) + t == t;
    } else {
      assert forall k | 0 <= k < |s| :: all[k] == s[k];
      assert Join(s) != [] by { assert s[|s| - 1] != []; }
      ContiguousJoin(Join(s), t);
    }
  }

  lemma RunBuilds(h: Hash, root: Buf, events: seq<Event>)
    requires events != [] && Contiguous(events)
    ensures Build(h, root, events).Ok? && Build(h, root, events).value.first == events[0].seqNo
  {
  }

  lemma Grow(h: Hash, head: Buf, a: seq<Batch>, s: Segments, t: seq<Event>)
    requires Holds(h, head, a, s) && FullRun(s + [t])
    ensures t != [] && Build(h, a[|a| - 1].merkleRoot, t).Ok?
    ensures Holds(h, head, a + [Build(h, a[|a| - 1].merkleRoot, t).value], s + [t])
  {
    FrontOfRun(s, t);
    LastRootValid(h, head, a, s);
    ChainIsOneRun(h, head, a, s);
    var root := a[|a| - 1].merkleRoot;
    RunBuilds(h, root, t);
    var b := Build(h, root, t).value;
    Single(h, root, b, t);
    ChainJoins(h, head, a, [b], s, [t]);
  }

  /** Folding the builder over the pieces of a gap-free run never fails, and
      the verifier accepts the result. */
  lemma {:induction false} BuildHolds(h: Hash, head: Buf, segments: Segments)
    requires ValidRoot(head) && FullRun(segments)
    ensures BuildChain(h, head, segments).Ok?
    ensures Holds(h, head, BuildChain(h, head, segments).value, segments)
    decreases |segments|
  {
    var n := |segments| - 1;
    var s, t := segments[..n], segments[n];
    assert segments == s + [t];
    FrontOfRun(s, t);
    if n == 0 {
      RunBuilds(h, head, t);
      var b := Build(h, head, t).value;
      Single(h, head, b, t);
      assert BuildChain(h, head, segments).value == [b];
    } else {
      BuildHolds(h, head, s);
      Grow(h, head, BuildChain(h, head, s).value, s, t);
    }
  }

  /** The verifier accepts exactly the chains the builder folds over the
      consecutive pieces of one gap-free run. */
  lemma ChainIsBuilt(h: Hash, head: Buf, batches: seq<Batch>, segments: Segments)
    ensures Holds(h, head, batches, segments) <==>
      ValidRoot(head) && FullRun(segments) && BuildChain(h, head, segments) == Ok(batches)
  {
    if Holds(h, head, batches, segments) {
      ChainIsOneRun(h, head, batches, segments);
      HoldsIsBuilt(h, head, batches, segments);
    }
    if ValidRoot(head) && FullRun(segments) {
      BuildHolds(h, head, segments);
    }
  }

  // ---- what the records commit to -------------------------------------------

  ghost function ChainInputs(h: Hash, segments: Segments): set<Buf> {
    set k, x | 0 <= k < |segments| && x in BatchInputs(h, segments[k]) :: x
  }

  ghost predicate ChainFits(segments: Segments) { forall k | 0 <= k < |segments| :: AllFit(segments[k]) }

  /** The batch records alone fix every event of the chain. */
  lemma ChainBinds(h: Hash, head: Buf, batches: seq<Batch>, s: Segments, t: Segments)
    requires Holds(h, head, batches, s) && Holds(h, head, batches, t) && ChainFits(s) && ChainFits(t)
    requires CollisionFreeOn(h, ChainInputs(h, s) + ChainInputs(h, t))
    ensures s == t
  {
    forall k | 0 <= k < |s|
      ensures s[k] == t[k]
    {
      assert ErrorAt(h, head, batches, s, k) == None && ErrorAt(h, head, batches, t, k) == None;
      Within(h, s, k);
      Within(h, t, k);
      FewerInputs(h, ChainInputs(h, s) + ChainInputs(h, t), BatchInputs(h, s[k]) + BatchInputs(h, t[k]));
      BatchBinds(h, batches[k], s[k], t[k]);
    }
  }

  lemma Within(h: Hash, segments: Segments, k: nat)
    requires k < |segments|
    ensures BatchInputs(h, segments[k]) <= ChainInputs(h, segments)
  {
  }
}
