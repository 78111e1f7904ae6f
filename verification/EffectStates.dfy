/** The effect state machine and reachability over its legal edges. */
module EffectStates {
  import opened Bytes

  datatype EffectState =
    | Proposed
    | Authorized
    | Dispatching
    | ReceiptPending
    | Verified
    | Committed
    | OutcomeUnknown
    | Quarantined
    | Failed
    | CompensationPending
    | Compensating
    | Compensated
    | OrphanedRemote

  /** The closed edge table; every pair outside it is refused. */
  predicate Edge(from: EffectState, to: EffectState) {
    match (from, to)
    case (Proposed, Authorized) => true
    case (Proposed, Failed) => true
    case (Authorized, Failed) => true
    case (Authorized, Dispatching) => true
    case (Dispatching, ReceiptPending) => true
    case (Dispatching, OutcomeUnknown) => true
    case (ReceiptPending, OutcomeUnknown) => true
    case (ReceiptPending, Verified) => true
    case (OutcomeUnknown, Verified) => true
    case (OutcomeUnknown, Dispatching) => true
    case (OutcomeUnknown, OrphanedRemote) => true
    case (Verified, Committed) => true
    case (Dispatching, Quarantined) => true
    case (ReceiptPending, Quarantined) => true
    case (OutcomeUnknown, Quarantined) => true
    case (Quarantined, CompensationPending) => true
    case (CompensationPending, Compensating) => true
    case (Compensating, Compensated) => true
    case _ => false
  }

  predicate Unresolved(s: EffectState) {
    s.Dispatching? || s.ReceiptPending? || s.OutcomeUnknown?
  }

  predicate Terminal(s: EffectState) {
    s.Committed? || s.Failed? || s.Compensated? || s.OrphanedRemote?
  }

  function NormalizeForRecovery(s: EffectState): Option<EffectState> {
    if Unresolved(s) then Some(OutcomeUnknown) else None
  }

  ghost predicate Path(p: seq<EffectState>) {
    p != [] && forall i | 0 <= i < |p| - 1 :: Edge(p[i], p[i + 1])
  }

  ghost predicate Walks(p: seq<EffectState>, from: EffectState, to: EffectState) {
    Path(p) && p[0] == from && p[|p| - 1] == to
  }

  ghost predicate Reaches(from: EffectState, to: EffectState) {
    exists p :: Walks(p, from, to)
  }

  lemma ReachSelf(a: EffectState)
    ensures Reaches(a, a)
  {
    assert Walks([a], a, a);
  }

  lemma ReachEdge(a: EffectState, b: EffectState)
    requires Edge(a, b)
    ensures Reaches(a, b)
  {
    assert Walks([a, b], a, b);
  }

  lemma ReachTrans(a: EffectState, b: EffectState, c: EffectState)
    requires Reaches(a, b) && Reaches(b, c)
    ensures Reaches(a, c)
  {
    var p :| Walks(p, a, b);
    var q :| Walks(q, b, c);
    var r := p + q[1..];
    forall i | 0 <= i < |r| - 1
      ensures Edge(r[i], r[i + 1])
    {
      if i == |p| - 1 {
        assert r[i] == q[0] && r[i + 1] == q[1];
      } else if i >= |p| {
        assert r[i] == q[i - |p| + 1] && r[i + 1] == q[i - |p| + 2];
      }
    }
    assert Walks(r, a, c);
  }

  /** A terminal state is never left by any path. */
  lemma TerminalAbsorbs(a: EffectState, b: EffectState)
    requires Terminal(a) && Reaches(a, b)
    ensures a == b
  {
    var p :| Walks(p, a, b);
    assert |p| > 1 ==> Edge(p[0], p[1]);
  }
}
