/** When a graph delta is accepted, what it leaves, and which error refuses it,
    said of the values its ops find and not of their evaluation. */
module GraphEvaluation {
  import opened Bytes
  import opened GraphDelta
  import opened GraphReplay

  /** What an op on `s` finds after these ops: their last target for it, or what
      the graph holds. */
  function Found(g: Graph, ops: seq<Op>, s: Subject): Option<Val> {
    if LastTo(ops, s).Some? then LastTo(ops, s) else Get(g, s)
  }

  ghost predicate Fits(g: Graph, ops: seq<Op>, i: nat)
    requires i < |ops|
  {
    Legal(ops[i]) && Found(g, ops[..i], SubjectOf(ops[i])) == Some(From(ops[i]))
  }

  /** Every op is legal and expects the value it finds. */
  ghost predicate AllFit(g: Graph, ops: seq<Op>, n: nat)
    requires n <= |ops|
  {
    forall i | 0 <= i < n :: Fits(g, ops, i)
  }

  lemma FitsPrefix(g: Graph, ops: seq<Op>, n: nat)
    requires n <= |ops|
    ensures AllFit(g, ops[..n], n) <==> AllFit(g, ops, n)
  {
    var front := ops[..n];
    assert forall i | 0 <= i < n :: front[i] == ops[i] && front[..i] == ops[..i];
    assert forall i | 0 <= i < n :: Fits(g, front, i) <==> Fits(g, ops, i);
  }

  lemma LastFits(g: Graph, front: seq<Op>, op: Op)
    requires ApplyAll(g, front).Ok?
    ensures Apply(ApplyAll(g, front).value, op).Ok? <==> Legal(op) && Found(g, front, SubjectOf(op)) == Some(From(op))
  {
    Outcome(g, front, SubjectOf(op));
    ApplyMeans(ApplyAll(g, front).value, op);
  }

  lemma {:induction false} GoesThroughIff(g: Graph, ops: seq<Op>)
    ensures ApplyAll(g, ops).Ok? <==> AllFit(g, ops, |ops|)
    decreases |ops|
  {
    if ops != [] {
      GoesThroughIff(g, ops[..|ops| - 1]);
      FitsPrefix(g, ops, |ops| - 1);
      assert AllFit(g, ops, |ops|) <==> AllFit(g, ops, |ops| - 1) && Fits(g, ops, |ops| - 1);
      if ApplyAll(g, ops[..|ops| - 1]).Ok? { LastFits(g, ops[..|ops| - 1], ops[|ops| - 1]); }
    }
  }

  /** No graph is changed by a delta made for another one. */
  lemma ChangeNeedsTheParent(digest: Graph -> Digest, g: Graph, delta: Delta)
    requires Evaluate(digest, g, delta).Ok? && Evaluate(digest, g, delta).value != g
    ensures digest(g) == delta.parent && !AlreadyApplied(g, delta.ops)
  {
  }

  /** On unique ids a delta is accepted exactly when its targets are all in place,
      or it was made for this graph and every op fits; in the second case every
      subject holds what the next op would find, and nothing else has changed. */
  lemma EvaluatesExactly(digest: Graph -> Digest, g: Graph, delta: Delta)
    requires Unique(g)
    ensures var r := Evaluate(digest, g, delta);
      && (r.Ok? <==> AllInPlace(g, delta.ops) || (digest(g) == delta.parent && AllFit(g, delta.ops, |delta.ops|)))
      && (r.Ok? && AllInPlace(g, delta.ops) ==> r.value == g)
      && (r.Ok? && !AllInPlace(g, delta.ops) ==>
            && r.value.mission == g.mission && SameIds(g.packages, r.value.packages) && SameIds<nat>(g.variants, r.value.variants)
            && forall s :: Get(r.value, s) == Found(g, delta.ops, s))
  {
    AppliedIsInPlace(g, delta.ops);
    GoesThroughIff(g, delta.ops);
    if Evaluate(digest, g, delta).Ok? && !AllInPlace(g, delta.ops) {
      IdsStay(g, delta.ops);
      forall s: Subject
        ensures Get(ApplyAll(g, delta.ops).value, s) == Found(g, delta.ops, s)
      {
        Outcome(g, delta.ops, s);
      }
    }
  }

  // ---- refusals -----------------------------------------------------------------

  /** Why an op does not fit the value it finds. */
  function Misfit(found: Option<Val>, op: Op): Error {
    match op
    case SetPackageState(_, from, _) =>
      if found == None then Missing else if found != Some(State(from)) then Conflict else InvalidTransition
    case BumpFence(_, was, becomes) =>
      if becomes == Successor(was) && found == None then Missing else Fence
  }

  lemma OneRefusal(g: Graph, op: Op)
    requires Apply(g, op).Err?
    ensures Apply(g, op).error == Misfit(Get(g, SubjectOf(op)), op)
  {
  }

  /** A delta that is not in place is refused for its parent first, and then for
      the first op that does not fit, with that op's own error. */
  lemma RefusedFor(digest: Graph -> Digest, g: Graph, delta: Delta, k: nat)
    requires !AlreadyApplied(g, delta.ops) && k < |delta.ops| && AllFit(g, delta.ops, k) && !Fits(g, delta.ops, k)
    ensures Evaluate(digest, g, delta) ==
      if digest(g) != delta.parent then Err(Conflict)
      else Err(Misfit(Found(g, delta.ops[..k], SubjectOf(delta.ops[k])), delta.ops[k]))
  {
    var front, op := delta.ops[..k], delta.ops[k];
    assert delta.ops[..k + 1][..k] == front && delta.ops[..k + 1] == front + [op];
    FitsPrefix(g, delta.ops, k);
    GoesThroughIff(g, front);
    LastFits(g, front, op);
    var mid := ApplyAll(g, front).value;
    Outcome(g, front, SubjectOf(op));
    OneRefusal(mid, op);
    ApplyLast(g, front, op);
    ErrorStays(g, delta.ops, k + 1);
  }
}
