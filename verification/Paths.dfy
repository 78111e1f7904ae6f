/** Paths of a state machine given by its edges, and machines whose every edge
    gains at most one stage: their paths skip none. */
module Paths {

  ghost predicate Path<S>(edge: (S, S) -> bool, p: seq<S>) {
    p != [] && forall i | 0 <= i < |p| - 1 :: edge(p[i], p[i + 1])
  }

  ghost predicate Walks<S>(edge: (S, S) -> bool, p: seq<S>, from: S, to: S) {
    Path(edge, p) && p[0] == from && p[|p| - 1] == to
  }

  ghost predicate Reaches<S(!new)>(edge: (S, S) -> bool, from: S, to: S) {
    exists p :: Walks(edge, p, from, to)
  }

  lemma ReachSelf<S(!new)>(edge: (S, S) -> bool, a: S)
    ensures Reaches(edge, a, a)
  {
    assert Walks(edge, [a], a, a);
  }

  lemma ReachOn<S(!new)>(edge: (S, S) -> bool, a: S, b: S, c: S)
    requires Reaches(edge, a, b) && edge(b, c)
    ensures Reaches(edge, a, c)
  {
    var p :| Walks(edge, p, a, b);
    assert Walks(edge, p + [c], a, c);
  }

  lemma ReachTrans<S(!new)>(edge: (S, S) -> bool, a: S, b: S, c: S)
    requires Reaches(edge, a, b) && Reaches(edge, b, c)
    ensures Reaches(edge, a, c)
  {
    var p :| Walks(edge, p, b, c);
    ReachAlong(edge, a, p, |p| - 1);
  }

  lemma {:induction false} ReachAlong<S(!new)>(edge: (S, S) -> bool, a: S, p: seq<S>, k: nat)
    requires Path(edge, p) && k < |p| && Reaches(edge, a, p[0])
    ensures Reaches(edge, a, p[k])
  {
    if k > 0 {
      ReachAlong(edge, a, p, k - 1);
      assert edge(p[k - 1], p[k - 1 + 1]);
      ReachOn(edge, a, p[k - 1], p[k]);
    }
  }

  /** No edge gains more than one stage. */
  ghost predicate Steady<S(!new)>(edge: (S, S) -> bool, stage: S -> nat) {
    forall a, b | edge(a, b) :: stage(b) <= stage(a) + 1
  }

  /** A path of a steady machine is at every stage between its ends, after its
      last visit to any earlier one. */
  lemma {:induction false} VisitsEveryStage<S(!new)>(edge: (S, S) -> bool, stage: S -> nat, p: seq<S>, n: nat) returns (i: nat)
    requires Steady(edge, stage) && Path(edge, p) && stage(p[0]) <= n <= stage(p[|p| - 1])
    ensures i < |p| && stage(p[i]) == n && forall j | i < j < |p| :: stage(p[j]) > n
    decreases |p|
  {
    var last := |p| - 1;
    if stage(p[last]) == n {
      i := last;
    } else {
      var front := p[..last];
      assert edge(p[last - 1], p[last - 1 + 1]);
      i := VisitsEveryStage(edge, stage, front, n);
      assert forall j | i < j < last :: p[j] == front[j];
    }
  }
}
