/** Graph deltas: ordered package transitions and fence increments evaluated
    against one loaded graph. */
module GraphDelta {
  import opened Bytes

  datatype PackageState =
    | Pending | Ready | Leased | Executing | Prepared | Verifying | Verified | Reviewing
    | IntegrationReady | Integrating | Integrated | Observing | Survived | Struggling
    | Escalating | Quarantined | Cancelled | Failed | Reverted | Rejected

  predicate Open(s: PackageState) {
    match s
    case Pending | Ready | Leased | Executing | Prepared | Verifying | Verified => true
    case Reviewing | IntegrationReady | Integrating | Struggling | Escalating => true
    case _ => false
  }

  predicate Abandons(to: PackageState) { to.Rejected? || to.Failed? || to.Cancelled? || to.Quarantined? }

  /** The legal edges of the work-package machine. */
  predicate Transition(from: PackageState, to: PackageState) {
    (Open(from) && Abandons(to)) || Advances(from, to)
  }

  predicate Advances(from: PackageState, to: PackageState) {
    match from
    case Pending => to.Ready?
    case Ready => to.Pending? || to.Leased?
    case Leased => to.Executing? || to.Ready?
    case Executing => to.Ready? || to.Prepared? || to.Struggling?
    case Prepared => to.Verifying?
    case Verifying => to.Verified?
    case Verified => to.Reviewing?
    case Reviewing => to.IntegrationReady?
    case IntegrationReady => to.Integrating?
    case Integrating => to.Integrated?
    case Integrated => to.Observing? || to.Reverted?
    case Observing => to.Survived? || to.Reverted?
    case Struggling => to.Executing? || to.Escalating?
    case Escalating => to.Executing?
    case _ => false
  }

  // ---- rows -----------------------------------------------------------------

  datatype Row<+V> = Row(id: Buf, value: V)

  /** Index of the first row with this id, or the length. */
  function Position<V>(rows: seq<Row<V>>, id: Buf): (p: nat)
    ensures p <= |rows|
    ensures p < |rows| ==> rows[p].id == id
  {
    if rows == [] || rows[0].id == id then 0 else 1 + Position(rows[1..], id)
  }

  function Lookup<V>(rows: seq<Row<V>>, id: Buf): Option<V> {
    var p := Position(rows, id);
    if p < |rows| then Some(rows[p].value) else None
  }

  function Put<V>(rows: seq<Row<V>>, id: Buf, value: V): seq<Row<V>> {
    var p := Position(rows, id);
    if p < |rows| then rows[p := Row(id, value)] else rows
  }

  lemma {:induction false} PositionIs<V>(rows: seq<Row<V>>, id: Buf, p: nat)
    requires p <= |rows| && (p < |rows| ==> rows[p].id == id) && forall i | 0 <= i < p :: rows[i].id != id
    ensures Position(rows, id) == p
    decreases p
  {
    if p > 0 {
      assert rows[0].id != id;
      forall i | 0 <= i < p - 1
        ensures rows[1..][i].id != id
      {
        assert rows[1..][i] == rows[i + 1];
      }
      PositionIs(rows[1..], id, p - 1);
    }
  }

  lemma {:induction false} NotBefore<V>(rows: seq<Row<V>>, id: Buf, i: nat)
    requires i < Position(rows, id)
    ensures rows[i].id != id
    decreases |rows|
  {
    if i > 0 {
      NotBefore(rows[1..], id, i - 1);
      assert rows[1..][i - 1] == rows[i];
    }
  }

  lemma PutPosition<V>(rows: seq<Row<V>>, id: Buf, value: V, other: Buf)
    ensures Position(Put(rows, id, value), other) == Position(rows, other)
  {
    var put, p := Put(rows, id, value), Position(rows, other);
    forall i | 0 <= i < p
      ensures put[i].id != other
    {
      NotBefore(rows, other, i);
    }
    PositionIs(put, other, p);
  }

  lemma PutLookup<V>(rows: seq<Row<V>>, id: Buf, value: V, other: Buf)
    ensures Lookup(Put(rows, id, value), other) ==
            if other == id && Lookup(rows, id).Some? then Some(value) else Lookup(rows, other)
  {
    PutPosition(rows, id, value, other);
  }

  lemma PutCommutes<V>(rows: seq<Row<V>>, a: Buf, v: V, b: Buf, w: V)
    requires a != b
    ensures Put(Put(rows, a, v), b, w) == Put(Put(rows, b, w), a, v)
  {
    PutPosition(rows, a, v, b);
    PutPosition(rows, b, w, a);
  }

  // ---- graphs and ops -------------------------------------------------------

  datatype Graph = Graph(mission: Buf, packages: seq<Row<PackageState>>, variants: seq<Row<nat>>)

  datatype Op =
    | SetPackageState(id: Buf, from: PackageState, to: PackageState)
    | BumpFence(variant: Buf, was: nat, becomes: nat)

  datatype Delta = Delta(parent: Digest, ops: seq<Op>)

  datatype Error = Missing | Conflict | InvalidTransition | Fence
  datatype Result<+T> = Ok(value: T) | Err(error: Error)

  function FenceOf(g: Graph, v: Buf): Option<nat> { Lookup<nat>(g.variants, v) }

  function Successor(fence: nat): nat { if fence < U64_MAX then fence + 1 else U64_MAX }

  function Apply(g: Graph, op: Op): Result<Graph> {
    match op
    case SetPackageState(id, from, to) =>
      (var state := Lookup(g.packages, id);
       if state.None? then Err(Missing)
       else if state.value != from then Err(Conflict)
       else if !Transition(from, to) then Err(InvalidTransition)
       else Ok(g.(packages := Put(g.packages, id, to))))
    case BumpFence(variant, was, becomes) =>
      if becomes != Successor(was) then Err(Fence)
      else
        var fence := FenceOf(g, variant);
        if fence.None? then Err(Missing)
        else if fence.value != was then Err(Fence)
        else Ok(g.(variants := Put<nat>(g.variants, variant, becomes)))
  }

  function ApplyAll(g: Graph, ops: seq<Op>): Result<Graph> {
    if ops == [] then Ok(g)
    else
      match ApplyAll(g, ops[..|ops| - 1])
      case Err(e) => Err(e)
      case Ok(next) => Apply(next, ops[|ops| - 1])
  }

  predicate Holds<V(==)>(rows: seq<Row<V>>, id: Buf, value: V) {
    exists i | 0 <= i < |rows| :: rows[i] == Row(id, value)
  }

  predicate Present(g: Graph, op: Op) {
    match op
    case SetPackageState(id, _, to) => Holds(g.packages, id, to)
    case BumpFence(variant, _, becomes) => Holds<nat>(g.variants, variant, becomes)
  }

  predicate AlreadyApplied(g: Graph, ops: seq<Op>) {
    forall i | 0 <= i < |ops| :: Present(g, ops[i])
  }

  function Evaluate(digest: Graph -> Digest, g: Graph, delta: Delta): Result<Graph> {
    if AlreadyApplied(g, delta.ops) then Ok(g)
    else if digest(g) != delta.parent then Err(Conflict)
    else ApplyAll(g, delta.ops)
  }

  lemma {:induction false} ErrorStays(g: Graph, ops: seq<Op>, k: nat)
    requires k <= |ops| && ApplyAll(g, ops[..k]).Err?
    ensures ApplyAll(g, ops) == ApplyAll(g, ops[..k])
    decreases |ops|
  {
    if k < |ops| {
      assert ops[..|ops| - 1][..k] == ops[..k];
      ErrorStays(g, ops[..|ops| - 1], k);
    } else {
      assert ops[..k] == ops;
    }
  }

  method EvaluateGraphDelta(digest: Graph -> Digest, g: Graph, delta: Delta) returns (r: Result<Graph>)
    ensures r == Evaluate(digest, g, delta)
    ensures r.Ok? && r.value != g ==> digest(g) == delta.parent
  {
    if AlreadyApplied(g, delta.ops) { return Ok(g); }
    if digest(g) != delta.parent { return Err(Conflict); }
    var next := g;
    for k := 0 to |delta.ops|
      invariant ApplyAll(g, delta.ops[..k]) == Ok(next)
    {
      assert delta.ops[..k + 1][..k] == delta.ops[..k];
      var step := Apply(next, delta.ops[k]);
      if step.Err? {
        ErrorStays(g, delta.ops, k + 1);
        return step;
      }
      next := step.value;
    }
    assert delta.ops[..|delta.ops|] == delta.ops;
    return Ok(next);
  }

  // ---- one view of both kinds of op -----------------------------------------

  datatype Subject = Package(id: Buf) | Variant(id: Buf)
  datatype Val = State(state: PackageState) | Count(fence: nat)

  function SubjectOf(op: Op): Subject { if op.BumpFence? then Variant(op.variant) else Package(op.id) }
  function From(op: Op): Val { if op.BumpFence? then Count(op.was) else State(op.from) }
  function To(op: Op): Val { if op.BumpFence? then Count(op.becomes) else State(op.to) }

  predicate Legal(op: Op) {
    if op.BumpFence? then op.becomes == Successor(op.was) else Transition(op.from, op.to)
  }

  function Get(g: Graph, s: Subject): Option<Val> {
    match s
    case Package(id) => (var v := Lookup(g.packages, id); if v.None? then None else Some(State(v.value)))
    case Variant(id) => (var v := FenceOf(g, id); if v.None? then None else Some(Count(v.value)))
  }

  /** An op goes through exactly when it is legal and finds its expected value. */
  lemma ApplyMeans(g: Graph, op: Op)
    ensures Apply(g, op).Ok? <==> Legal(op) && Get(g, SubjectOf(op)) == Some(From(op))
  {
  }

  lemma ApplySets(g: Graph, op: Op, s: Subject)
    requires Apply(g, op).Ok?
    ensures Get(Apply(g, op).value, s) == if s == SubjectOf(op) then Some(To(op)) else Get(g, s)
  {
    match op
    case SetPackageState(id, _, to) => PutLookup(g.packages, id, to, s.id);
    case BumpFence(variant, _, becomes) => PutLookup<nat>(g.variants, variant, becomes, s.id);
  }

  // ---- order ----------------------------------------------------------------

  predicate Same(a: Result<Graph>, b: Result<Graph>) { (a.Err? && b.Err?) || a == b }

  function Then(r: Result<Graph>, op: Op): Result<Graph> { if r.Err? then r else Apply(r.value, op) }

  lemma PutsCommute(g: Graph, a: Op, b: Op)
    requires SubjectOf(a) != SubjectOf(b)
    requires Apply(g, a).Ok? && Apply(g, b).Ok? && Apply(Apply(g, a).value, b).Ok? && Apply(Apply(g, b).value, a).Ok?
    ensures Apply(Apply(g, a).value, b) == Apply(Apply(g, b).value, a)
  {
    if a.BumpFence? && b.BumpFence? {
      PutCommutes<nat>(g.variants, a.variant, a.becomes, b.variant, b.becomes);
    }
    if !a.BumpFence? && !b.BumpFence? {
      PutCommutes(g.packages, a.id, a.to, b.id, b.to);
    }
  }

  lemma Commute(r: Result<Graph>, a: Op, b: Op)
    requires SubjectOf(a) != SubjectOf(b)
    ensures Same(Then(Then(r, a), b), Then(Then(r, b), a))
  {
    if r.Ok? {
      var g := r.value;
      ApplyMeans(g, a);
      ApplyMeans(g, b);
      if Apply(g, a).Ok? {
        ApplySets(g, a, SubjectOf(b));
        ApplyMeans(Apply(g, a).value, b);
      }
      if Apply(g, b).Ok? {
        ApplySets(g, b, SubjectOf(a));
        ApplyMeans(Apply(g, b).value, a);
      }
      if Then(Then(r, a), b).Ok? { PutsCommute(g, a, b); }
    }
  }

  ghost predicate Avoids(ops: seq<Op>, s: Subject) { forall i | 0 <= i < |ops| :: SubjectOf(ops[i]) != s }

  ghost predicate Distinct(ops: seq<Op>) {
    forall i, j | 0 <= i < j < |ops| :: SubjectOf(ops[i]) != SubjectOf(ops[j])
  }

  lemma ApplyLast(g: Graph, ops: seq<Op>, op: Op)
    ensures ApplyAll(g, ops + [op]) == Then(ApplyAll(g, ops), op)
  {
  }

  lemma SameThen(a: Result<Graph>, b: Result<Graph>, op: Op)
    requires Same(a, b)
    ensures Same(Then(a, op), Then(b, op))
  {
  }

  /** An op may be moved past ops on other subjects. */
  lemma {:induction false} MoveLast(g: Graph, front: seq<Op>, op: Op, back: seq<Op>)
    requires Avoids(back, SubjectOf(op))
    ensures Same(ApplyAll(g, front + [op] + back), ApplyAll(g, front + back + [op]))
    decreases |back|
  {
    if back == [] {
      assert front + [op] + back == front + [op] && front + back + [op] == front + [op];
    } else {
      var most, last := back[..|back| - 1], back[|back| - 1];
      MoveLast(g, front, op, most);
      assert front + [op] + back == (front + [op] + most) + [last];
      assert front + back + [op] == (front + most + [last]) + [op];
      ApplyLast(g, front + [op] + most, last);
      ApplyLast(g, front + most, op);
      ApplyLast(g, front + most, last);
      ApplyLast(g, front + most + [last], op);
      SameThen(ApplyAll(g, front + [op] + most), ApplyAll(g, front + most + [op]), last);
      Commute(ApplyAll(g, front + most), op, last);
    }
  }

  lemma Without(ops: seq<Op>, k: nat)
    requires Distinct(ops) && k < |ops|
    ensures Distinct(ops[..k] + ops[k + 1..]) && Avoids(ops[k + 1..], SubjectOf(ops[k]))
  {
  }

  lemma SameBag(front: seq<Op>, last: Op, back: seq<Op>, rest: seq<Op>)
    requires multiset(front + [last] + back) == multiset(rest + [last])
    ensures multiset(front + back) == multiset(rest)
  {
    assert multiset(front + [last] + back) == multiset(front) + multiset{last} + multiset(back);
    assert multiset(front + back) == multiset(front + [last] + back) - multiset{last};
    assert multiset(rest) == multiset(rest + [last]) - multiset{last};
  }

  /** With distinct subjects the outcome does not depend on the order. */
  lemma {:induction false} OrderDoesNotMatter(g: Graph, ops: seq<Op>, ops': seq<Op>)
    requires Distinct(ops) && multiset(ops) == multiset(ops')
    ensures Same(ApplyAll(g, ops), ApplyAll(g, ops'))
    decreases |ops|
  {
    assert |ops| == |multiset(ops)| == |multiset(ops')| == |ops'|;
    if ops' != [] {
      var rest, last := ops'[..|ops'| - 1], ops'[|ops'| - 1];
      assert ops' == rest + [last];
      assert last in multiset(ops);
      var k :| 0 <= k < |ops| && ops[k] == last;
      assert ops == ops[..k] + [last] + ops[k + 1..];
      Without(ops, k);
      SameBag(ops[..k], last, ops[k + 1..], rest);
      OrderDoesNotMatter(g, ops[..k] + ops[k + 1..], rest);
      Reorder(g, ops[..k], last, ops[k + 1..], rest);
    }
  }

  lemma Reorder(g: Graph, front: seq<Op>, last: Op, back: seq<Op>, rest: seq<Op>)
    requires Avoids(back, SubjectOf(last)) && Same(ApplyAll(g, front + back), ApplyAll(g, rest))
    ensures Same(ApplyAll(g, front + [last] + back), ApplyAll(g, rest + [last]))
  {
    MoveLast(g, front, last, back);
    ApplyLast(g, front + back, last);
    ApplyLast(g, rest, last);
    SameThen(ApplyAll(g, front + back), ApplyAll(g, rest), last);
  }

  /** So neither does the evaluation of a delta. */
  lemma EvaluationOrderDoesNotMatter(digest: Graph -> Digest, g: Graph, delta: Delta, ops': seq<Op>)
    requires Distinct(delta.ops) && multiset(delta.ops) == multiset(ops')
    ensures Same(Evaluate(digest, g, delta), Evaluate(digest, g, delta.(ops := ops')))
  {
    OrderDoesNotMatter(g, delta.ops, ops');
    if AlreadyApplied(g, delta.ops) { AppliedUnordered(g, delta.ops, ops'); }
    if AlreadyApplied(g, ops') { AppliedUnordered(g, ops', delta.ops); }
  }

  lemma AppliedUnordered(g: Graph, ops: seq<Op>, ops': seq<Op>)
    requires multiset(ops) == multiset(ops') && AlreadyApplied(g, ops)
    ensures AlreadyApplied(g, ops')
  {
    forall i | 0 <= i < |ops'|
      ensures Present(g, ops'[i])
    {
      assert ops'[i] in multiset(ops);
    }
  }
}
