/** What a bare second evaluation of a graph delta does, and what runs of
    evaluations keep. */
module GraphReplay {
  import opened Bytes
  import opened GraphDelta

  // ---- what a delta leaves ----------------------------------------------------

  ghost predicate Names(ops: seq<Op>, s: Subject) { !Avoids(ops, s) }

  /** The first expectation and the last target stated for a subject. */
  function FirstFrom(ops: seq<Op>, s: Subject): Option<Val> {
    if ops == [] then None
    else if SubjectOf(ops[0]) == s then Some(From(ops[0]))
    else FirstFrom(ops[1..], s)
  }

  function LastTo(ops: seq<Op>, s: Subject): Option<Val> {
    if ops == [] then None
    else if SubjectOf(ops[|ops| - 1]) == s then Some(To(ops[|ops| - 1]))
    else LastTo(ops[..|ops| - 1], s)
  }

  lemma {:induction false} FirstFromLast(ops: seq<Op>, op: Op, s: Subject)
    ensures FirstFrom(ops + [op], s) ==
            if FirstFrom(ops, s).Some? then FirstFrom(ops, s) else if SubjectOf(op) == s then Some(From(op)) else None
    decreases |ops|
  {
    if ops == [] {
      assert ([] + [op])[1..] == [];
    } else {
      assert (ops + [op])[1..] == ops[1..] + [op];
      FirstFromLast(ops[1..], op, s);
    }
  }

  /** Every named subject started at its first expectation and ends at its
      last target; every other subject is untouched. */
  lemma {:induction false} Outcome(g: Graph, ops: seq<Op>, s: Subject)
    requires ApplyAll(g, ops).Ok?
    ensures FirstFrom(ops, s).Some? <==> LastTo(ops, s).Some?
    ensures FirstFrom(ops, s).Some? ==> Get(g, s) == FirstFrom(ops, s)
    ensures Get(ApplyAll(g, ops).value, s) == if LastTo(ops, s).Some? then LastTo(ops, s) else Get(g, s)
    decreases |ops|
  {
    if ops != [] {
      var front, op := ops[..|ops| - 1], ops[|ops| - 1];
      assert ops == front + [op];
      Outcome(g, front, s);
      FirstFromLast(front, op, s);
      var mid := ApplyAll(g, front).value;
      ApplyMeans(mid, op);
      ApplySets(mid, op, s);
    }
  }

  lemma {:induction false} NamedHasLast(ops: seq<Op>, i: nat)
    requires i < |ops|
    ensures LastTo(ops, SubjectOf(ops[i])).Some?
    decreases |ops|
  {
    if SubjectOf(ops[|ops| - 1]) != SubjectOf(ops[i]) { NamedHasLast(ops[..|ops| - 1], i); }
  }

  lemma {:induction false} LastIsNamed(ops: seq<Op>, s: Subject) returns (i: nat)
    requires LastTo(ops, s).Some?
    ensures i < |ops| && SubjectOf(ops[i]) == s && LastTo(ops, s) == Some(To(ops[i]))
    decreases |ops|
  {
    if SubjectOf(ops[|ops| - 1]) == s { i := |ops| - 1; } else { i := LastIsNamed(ops[..|ops| - 1], s); }
  }

  // ---- when a delta counts as applied -------------------------------------------

  ghost predicate UniqueIds<V>(rows: seq<Row<V>>) { forall i, j | 0 <= i < j < |rows| :: rows[i].id != rows[j].id }
  ghost predicate Unique(g: Graph) { UniqueIds(g.packages) && UniqueIds<nat>(g.variants) }

  ghost predicate InPlace(g: Graph, op: Op) { Get(g, SubjectOf(op)) == Some(To(op)) }
  ghost predicate AllInPlace(g: Graph, ops: seq<Op>) { forall i | 0 <= i < |ops| :: InPlace(g, ops[i]) }

  lemma HoldsIsLookup<V>(rows: seq<Row<V>>, id: Buf, value: V)
    ensures Lookup(rows, id) == Some(value) ==> Holds(rows, id, value)
    ensures UniqueIds(rows) && Holds(rows, id, value) ==> Lookup(rows, id) == Some(value)
  {
    var p := Position(rows, id);
    if UniqueIds(rows) && Holds(rows, id, value) {
      var i :| 0 <= i < |rows| && rows[i] == Row(id, value);
      PositionIs(rows, id, i);
    }
  }

  lemma PresentIsInPlace(g: Graph, op: Op)
    ensures InPlace(g, op) ==> Present(g, op)
    ensures Unique(g) ==> (Present(g, op) <==> InPlace(g, op))
  {
    match op
    case SetPackageState(id, _, to) => HoldsIsLookup(g.packages, id, to);
    case BumpFence(variant, _, becomes) => HoldsIsLookup<nat>(g.variants, variant, becomes);
  }

  lemma AppliedIsInPlace(g: Graph, ops: seq<Op>)
    ensures AllInPlace(g, ops) ==> AlreadyApplied(g, ops)
    ensures Unique(g) ==> (AlreadyApplied(g, ops) <==> AllInPlace(g, ops))
  {
    forall i | 0 <= i < |ops|
      ensures InPlace(g, ops[i]) ==> Present(g, ops[i])
      ensures Unique(g) ==> (Present(g, ops[i]) <==> InPlace(g, ops[i]))
    {
      PresentIsInPlace(g, ops[i]);
    }
  }

  predicate Saturated(op: Op) { op.BumpFence? && op.was == U64_MAX }

  /** No subject is named twice, except to bump a fence that is already full. */
  ghost predicate NamedOnce(ops: seq<Op>) {
    forall i, j | 0 <= i < j < |ops| && SubjectOf(ops[i]) == SubjectOf(ops[j]) :: Saturated(ops[j])
  }

  lemma SelfLoop(op: Op)
    requires Legal(op)
    ensures From(op) == To(op) <==> Saturated(op)
  {
  }

  lemma InPlaceMoves(g: Graph, r: Graph, ops: seq<Op>)
    requires forall i | 0 <= i < |ops| :: Get(g, SubjectOf(ops[i])) == Get(r, SubjectOf(ops[i]))
    ensures AllInPlace(g, ops) <==> AllInPlace(r, ops)
  {
  }

  lemma SnocInPlace(g: Graph, ops: seq<Op>, op: Op)
    ensures AllInPlace(g, ops + [op]) <==> AllInPlace(g, ops) && InPlace(g, op)
  {
    var all := ops + [op];
    if AllInPlace(g, all) {
      assert InPlace(g, all[|ops|]);
      forall i | 0 <= i < |ops|
        ensures InPlace(g, ops[i])
      {
        assert InPlace(g, all[i]);
      }
    }
  }

  lemma SnocNamedOnce(ops: seq<Op>, op: Op)
    ensures NamedOnce(ops + [op]) <==> NamedOnce(ops) && (Names(ops, SubjectOf(op)) ==> Saturated(op))
  {
    var all := ops + [op];
    if NamedOnce(all) {
      forall i, j | 0 <= i < j < |ops| && SubjectOf(ops[i]) == SubjectOf(ops[j])
        ensures Saturated(ops[j])
      {
        assert all[i] == ops[i] && all[j] == ops[j];
      }
      if Names(ops, SubjectOf(op)) {
        var i :| 0 <= i < |ops| && SubjectOf(ops[i]) == SubjectOf(op);
        assert all[i] == ops[i] && all[|ops|] == op;
      }
    }
  }

  /** After a delta went through, all its targets are in place exactly when it
      named each subject once. */
  lemma {:induction false} InPlaceIff(g: Graph, ops: seq<Op>)
    requires ApplyAll(g, ops).Ok?
    ensures AllInPlace(ApplyAll(g, ops).value, ops) <==> NamedOnce(ops)
    decreases |ops|
  {
    if ops != [] {
      var front, op := ops[..|ops| - 1], ops[|ops| - 1];
      assert ops == front + [op];
      InPlaceIff(g, front);
      InPlaceStep(g, front, op);
    }
  }

  lemma InPlaceStep(g: Graph, front: seq<Op>, op: Op)
    requires ApplyAll(g, front).Ok? && Apply(ApplyAll(g, front).value, op).Ok?
    requires AllInPlace(ApplyAll(g, front).value, front) <==> NamedOnce(front)
    ensures AllInPlace(Apply(ApplyAll(g, front).value, op).value, front + [op]) <==> NamedOnce(front + [op])
  {
    var mid := ApplyAll(g, front).value;
    var r := Apply(mid, op).value;
    ApplyMeans(mid, op);
    SelfLoop(op);
    SnocInPlace(r, front, op);
    SnocNamedOnce(front, op);
    forall s: Subject
      ensures Get(r, s) == if s == SubjectOf(op) then Some(To(op)) else Get(mid, s)
    {
      ApplySets(mid, op, s);
    }
    if !Names(front, SubjectOf(op)) || Saturated(op) {
      InPlaceMoves(mid, r, front);
    } else {
      NamedTwice(g, front, op, r);
    }
  }

  lemma NamedTwice(g: Graph, front: seq<Op>, op: Op, r: Graph)
    requires ApplyAll(g, front).Ok? && Names(front, SubjectOf(op)) && From(op) != To(op)
    requires Get(ApplyAll(g, front).value, SubjectOf(op)) == Some(From(op)) && Get(r, SubjectOf(op)) == Some(To(op))
    ensures !AllInPlace(r, front)
  {
    var s := SubjectOf(op);
    var j :| 0 <= j < |front| && SubjectOf(front[j]) == s;
    NamedHasLast(front, j);
    Outcome(g, front, s);
    var i := LastIsNamed(front, s);
    assert !InPlace(r, front[i]);
  }

  // ---- returning to the start ---------------------------------------------------

  /** Every named subject ends where it started. */
  ghost predicate Loops(ops: seq<Op>) {
    forall i | 0 <= i < |ops| :: FirstFrom(ops, SubjectOf(ops[i])) == LastTo(ops, SubjectOf(ops[i]))
  }

  ghost predicate SameIds<V>(a: seq<Row<V>>, b: seq<Row<V>>) {
    |a| == |b| && forall i | 0 <= i < |a| :: a[i].id == b[i].id
  }

  lemma {:induction false} IdsStay(g: Graph, ops: seq<Op>)
    requires ApplyAll(g, ops).Ok?
    ensures var r := ApplyAll(g, ops).value;
            r.mission == g.mission && SameIds(g.packages, r.packages) && SameIds<nat>(g.variants, r.variants)
    decreases |ops|
  {
    if ops != [] { IdsStay(g, ops[..|ops| - 1]); }
  }

  lemma SameRows<V>(a: seq<Row<V>>, b: seq<Row<V>>)
    requires UniqueIds(a) && SameIds(a, b) && forall id: Buf :: Lookup(a, id) == Lookup(b, id)
    ensures a == b
  {
    forall i | 0 <= i < |a|
      ensures a[i] == b[i]
    {
      PositionIs(a, a[i].id, i);
      PositionIs(b, a[i].id, i);
      assert Lookup(a, a[i].id) == Lookup(b, a[i].id);
    }
  }

  lemma SameGraph(g: Graph, r: Graph)
    requires Unique(g) && r.mission == g.mission && SameIds(g.packages, r.packages) && SameIds<nat>(g.variants, r.variants)
    requires forall s :: Get(g, s) == Get(r, s)
    ensures g == r
  {
    forall id: Buf
      ensures Lookup(g.packages, id) == Lookup(r.packages, id)
      ensures Lookup<nat>(g.variants, id) == Lookup<nat>(r.variants, id)
    {
      assert Get(g, Package(id)) == Get(r, Package(id)) && Get(g, Variant(id)) == Get(r, Variant(id));
    }
    SameRows(g.packages, r.packages);
    SameRows<nat>(g.variants, r.variants);
  }

  lemma LoopsIff(g: Graph, ops: seq<Op>)
    requires Unique(g) && ApplyAll(g, ops).Ok?
    ensures ApplyAll(g, ops).value == g <==> Loops(ops)
  {
    var r := ApplyAll(g, ops).value;
    if r == g {
      forall i | 0 <= i < |ops|
        ensures FirstFrom(ops, SubjectOf(ops[i])) == LastTo(ops, SubjectOf(ops[i]))
      {
        NamedHasLast(ops, i);
        Outcome(g, ops, SubjectOf(ops[i]));
      }
    }
    if Loops(ops) {
      IdsStay(g, ops);
      forall s: Subject
        ensures Get(g, s) == Get(r, s)
      {
        Outcome(g, ops, s);
        if LastTo(ops, s).Some? { var i := LastIsNamed(ops, s); }
      }
      SameGraph(g, r);
    }
  }

  // ---- replay -------------------------------------------------------------------

  /** With distinct subjects, evaluating again changes nothing. */
  lemma ReplayIsNoOp(digest: Graph -> Digest, g: Graph, delta: Delta)
    requires Distinct(delta.ops) && Evaluate(digest, g, delta).Ok?
    ensures var r := Evaluate(digest, g, delta).value; Evaluate(digest, r, delta) == Ok(r)
  {
    if !AlreadyApplied(g, delta.ops) {
      InPlaceIff(g, delta.ops);
      AppliedIsInPlace(ApplyAll(g, delta.ops).value, delta.ops);
    }
  }

  /** Exactly when a delta that went through can be evaluated again without
      effect: it named each subject once, or it led back to where it began. */
  lemma ReplayIsNoOpIff(digest: Graph -> Digest, g: Graph, delta: Delta)
    requires Unique(g) && !AlreadyApplied(g, delta.ops) && digest(g) == delta.parent && ApplyAll(g, delta.ops).Ok?
    requires var r := ApplyAll(g, delta.ops).value; digest(r) == digest(g) ==> r == g
    ensures var r := ApplyAll(g, delta.ops).value;
            Evaluate(digest, r, delta) == Ok(r) <==> NamedOnce(delta.ops) || Loops(delta.ops)
  {
    var r := ApplyAll(g, delta.ops).value;
    IdsStay(g, delta.ops);
    assert Unique(r);
    InPlaceIff(g, delta.ops);
    AppliedIsInPlace(r, delta.ops);
    LoopsIff(g, delta.ops);
  }

  function OneVariant(mission: Buf, v: Buf, fence: nat): Graph { Graph(mission, [], [Row(v, fence)]) }

  lemma OneBump(mission: Buf, v: Buf, fence: nat)
    requires fence < U64_MAX
    ensures Apply(OneVariant(mission, v, fence), BumpFence(v, fence, fence + 1)) == Ok(OneVariant(mission, v, fence + 1))
  {
    assert Position<nat>([Row(v, fence)], v) == 0;
    assert [Row(v, fence)][0 := Row(v, fence + 1)] == [Row(v, fence + 1)];
  }

  /** Two bumps of one fence: a bare second evaluation is refused. The command
      record is what makes such a delta repeatable. */
  lemma BareReevaluationConflicts(digest: Graph -> Digest, mission: Buf, v: Buf)
    requires digest(OneVariant(mission, v, 2)) != digest(OneVariant(mission, v, 0))
    ensures var g, r := OneVariant(mission, v, 0), OneVariant(mission, v, 2);
            var delta := Delta(digest(g), [BumpFence(v, 0, 1), BumpFence(v, 1, 2)]);
            Evaluate(digest, g, delta) == Ok(r) && Evaluate(digest, r, delta) == Err(Conflict)
  {
    var g, r := OneVariant(mission, v, 0), OneVariant(mission, v, 2);
    var a, b := BumpFence(v, 0, 1), BumpFence(v, 1, 2);
    var ops := [a, b];
    assert !Present(g, ops[0]) && !Present(r, ops[0]);
    OneBump(mission, v, 0);
    OneBump(mission, v, 1);
    assert [] + [a] == [a] && [a] + [b] == ops;
    ApplyLast(g, [], a);
    ApplyLast(g, [a], b);
  }

  // ---- runs of deltas -------------------------------------------------------------

  function Step(digest: Graph -> Digest, g: Graph, delta: Delta): Graph {
    var r := Evaluate(digest, g, delta);
    if r.Ok? then r.value else g
  }

  function Run(digest: Graph -> Digest, g: Graph, deltas: seq<Delta>): Graph {
    if deltas == [] then g else Step(digest, Run(digest, g, deltas[..|deltas| - 1]), deltas[|deltas| - 1])
  }

  function Bumps(ops: seq<Op>, v: Buf): nat {
    if ops == [] then 0
    else Bumps(ops[..|ops| - 1], v) + if SubjectOf(ops[|ops| - 1]) == Variant(v) then 1 else 0
  }

  function Capped(n: nat): nat { if n < U64_MAX then n else U64_MAX }

  lemma OneMore(g: Graph, op: Op, v: Buf, n: nat)
    requires Apply(g, op).Ok? && Get(g, Variant(v)) == Some(Count(Capped(n)))
    ensures Get(Apply(g, op).value, Variant(v)) == Some(Count(Capped(n + if SubjectOf(op) == Variant(v) then 1 else 0)))
  {
    ApplyMeans(g, op);
    ApplySets(g, op, Variant(v));
  }

  /** A fence rises by exactly the bumps that name it, up to the full value. */
  lemma {:induction false} FenceRises(g: Graph, ops: seq<Op>, v: Buf, fence: nat)
    requires ApplyAll(g, ops).Ok? && Get(g, Variant(v)) == Some(Count(fence)) && fence <= U64_MAX
    ensures Get(ApplyAll(g, ops).value, Variant(v)) == Some(Count(Capped(fence + Bumps(ops, v))))
    decreases |ops|
  {
    if ops != [] {
      var front, op := ops[..|ops| - 1], ops[|ops| - 1];
      FenceRises(g, front, v, fence);
      OneMore(ApplyAll(g, front).value, op, v, fence + Bumps(front, v));
    }
  }

  lemma StepKeepsFence(digest: Graph -> Digest, g: Graph, delta: Delta, v: Buf, fence: nat)
    requires Get(g, Variant(v)) == Some(Count(fence)) && fence <= U64_MAX
    ensures var after := Get(Step(digest, g, delta), Variant(v));
            after.Some? && after.value.Count? && fence <= after.value.fence <= U64_MAX
  {
    if Evaluate(digest, g, delta).Ok? && !AlreadyApplied(g, delta.ops) { FenceRises(g, delta.ops, v, fence); }
  }

  /** No run of evaluations, accepted, replayed or refused, lowers a fence. */
  lemma {:induction false} FencesNeverDrop(digest: Graph -> Digest, g: Graph, deltas: seq<Delta>, v: Buf, fence: nat)
    requires Get(g, Variant(v)) == Some(Count(fence)) && fence <= U64_MAX
    ensures var after := Get(Run(digest, g, deltas), Variant(v));
            after.Some? && after.value.Count? && fence <= after.value.fence <= U64_MAX
    decreases |deltas|
  {
    if deltas != [] {
      FencesNeverDrop(digest, g, deltas[..|deltas| - 1], v, fence);
      var mid := Run(digest, g, deltas[..|deltas| - 1]);
      StepKeepsFence(digest, mid, deltas[|deltas| - 1], v, Get(mid, Variant(v)).value.fence);
    }
  }

  predicate Closed(s: PackageState) { !Open(s) && !s.Integrated? && !s.Observing? }

  lemma {:induction false} ClosedStays(g: Graph, ops: seq<Op>, id: Buf, s: PackageState)
    requires ApplyAll(g, ops).Ok? && Lookup(g.packages, id) == Some(s) && Closed(s)
    ensures Lookup(ApplyAll(g, ops).value.packages, id) == Some(s)
    decreases |ops|
  {
    if ops != [] {
      var front, op := ops[..|ops| - 1], ops[|ops| - 1];
      ClosedStays(g, front, id, s);
      var mid := ApplyAll(g, front).value;
      if !op.BumpFence? { PutLookup(mid.packages, op.id, op.to, id); }
    }
  }

  /** A package that reached a closed state keeps it in every run. */
  lemma {:induction false} ClosedForGood(digest: Graph -> Digest, g: Graph, deltas: seq<Delta>, id: Buf, s: PackageState)
    requires Lookup(g.packages, id) == Some(s) && Closed(s)
    ensures Lookup(Run(digest, g, deltas).packages, id) == Some(s)
    decreases |deltas|
  {
    if deltas != [] {
      ClosedForGood(digest, g, deltas[..|deltas| - 1], id, s);
      var mid, delta := Run(digest, g, deltas[..|deltas| - 1]), deltas[|deltas| - 1];
      if Evaluate(digest, mid, delta).Ok? && !AlreadyApplied(mid, delta.ops) {
        ClosedStays(mid, delta.ops, id, s);
      }
    }
  }
}
