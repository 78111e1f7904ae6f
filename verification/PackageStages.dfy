/** The life of a work package: no run of deltas takes it past a stage it has not
    been in, and every state of the machine can be reached. */
module PackageStages {
  import opened Bytes
  import opened Paths
  import opened GraphDelta
  import R = GraphReplay

  const LEGAL: (PackageState, PackageState) -> bool := (a, b) => Transition(a, b)

  /** How far a package has come; an abandoned or reverted one is nowhere. */
  function Stage(s: PackageState): nat {
    match s
    case Pending => 0
    case Ready => 1
    case Leased => 2
    case Executing | Struggling | Escalating => 3
    case Prepared => 4
    case Verifying => 5
    case Verified => 6
    case Reviewing => 7
    case IntegrationReady => 8
    case Integrating => 9
    case Integrated => 10
    case Observing => 11
    case Survived => 12
    case _ => 0
  }

  lemma OneStageAtATime()
    ensures Steady(LEGAL, Stage)
  {
  }

  lemma OpReaches(g: Graph, op: Op, id: Buf, s: PackageState)
    requires Apply(g, op).Ok? && Lookup(g.packages, id) == Some(s)
    ensures var after := Lookup(Apply(g, op).value.packages, id);
      after.Some? && (after.value == s || Transition(s, after.value))
  {
    if !op.BumpFence? { PutLookup(g.packages, op.id, op.to, id); }
  }

  ghost predicate Became(s: PackageState, after: Option<PackageState>) {
    after.Some? && Reaches(LEGAL, s, after.value)
  }

  lemma {:induction false} OpsReach(g: Graph, ops: seq<Op>, id: Buf, s: PackageState)
    requires ApplyAll(g, ops).Ok? && Lookup(g.packages, id) == Some(s)
    ensures Became(s, Lookup(ApplyAll(g, ops).value.packages, id))
    decreases |ops|
  {
    if ops == [] {
      ReachSelf(LEGAL, s);
    } else {
      var front, op := ops[..|ops| - 1], ops[|ops| - 1];
      OpsReach(g, front, id, s);
      var mid := ApplyAll(g, front).value;
      var now := Lookup(mid.packages, id).value;
      OpReaches(mid, op, id, now);
      var after := Lookup(Apply(mid, op).value.packages, id).value;
      if after != now { ReachOn(LEGAL, s, now, after); }
    }
  }

  /** Along every run of deltas, accepted or refused, a package moves on a path of
      legal edges. */
  lemma {:induction false} RunReaches(digest: Graph -> Digest, g: Graph, deltas: seq<Delta>, id: Buf, s: PackageState)
    requires Lookup(g.packages, id) == Some(s)
    ensures Became(s, Lookup(R.Run(digest, g, deltas).packages, id))
    decreases |deltas|
  {
    if deltas == [] {
      ReachSelf(LEGAL, s);
    } else {
      var front, delta := deltas[..|deltas| - 1], deltas[|deltas| - 1];
      RunReaches(digest, g, front, id, s);
      var mid := R.Run(digest, g, front);
      if Evaluate(digest, mid, delta).Ok? && !AlreadyApplied(mid, delta.ops) {
        var now := Lookup(mid.packages, id).value;
        OpsReach(mid, delta.ops, id, now);
        ReachTrans(LEGAL, s, now, Lookup(ApplyAll(mid, delta.ops).value.packages, id).value);
      }
    }
  }

  /** The path has been at this stage and stayed beyond it since. */
  ghost predicate PassedThrough(p: seq<PackageState>, n: nat) {
    exists i | 0 <= i < |p| :: Stage(p[i]) == n && forall j | i < j < |p| :: Stage(p[j]) > n
  }

  /** However a package came from one state to a later one, it went through every
      stage between: an integrated package was prepared, verified, reviewed and
      cleared for integration, in this order. */
  lemma NoStageIsSkipped(digest: Graph -> Digest, g: Graph, deltas: seq<Delta>, id: Buf, n: nat)
    requires Lookup(g.packages, id).Some? && Lookup(R.Run(digest, g, deltas).packages, id).Some?
    requires Stage(Lookup(g.packages, id).value) <= n <= Stage(Lookup(R.Run(digest, g, deltas).packages, id).value)
    ensures var s, t := Lookup(g.packages, id).value, Lookup(R.Run(digest, g, deltas).packages, id).value;
      Reaches(LEGAL, s, t) && forall p | Walks(LEGAL, p, s, t) :: PassedThrough(p, n)
  {
    var s, t := Lookup(g.packages, id).value, Lookup(R.Run(digest, g, deltas).packages, id).value;
    RunReaches(digest, g, deltas, id, s);
    OneStageAtATime();
    forall p | Walks(LEGAL, p, s, t)
      ensures PassedThrough(p, n)
    {
      var i := VisitsEveryStage(LEGAL, Stage, p, n);
    }
  }

  const WHOLE_LIFE: seq<PackageState> :=
    [Pending, Ready, Leased, Executing, Prepared, Verifying, Verified, Reviewing, IntegrationReady, Integrating,
     Integrated, Observing, Survived]

  lemma LifeGoesOn(k: nat)
    requires k + 1 < |WHOLE_LIFE|
    ensures Transition(WHOLE_LIFE[k], WHOLE_LIFE[k + 1])
  {
  }

  lemma {:induction false} WholeLife(k: nat)
    requires k < |WHOLE_LIFE|
    ensures Reaches(LEGAL, Pending, WHOLE_LIFE[k])
  {
    if k == 0 {
      ReachSelf(LEGAL, Pending);
    } else {
      WholeLife(k - 1);
      LifeGoesOn(k - 1);
      ReachOn(LEGAL, Pending, WHOLE_LIFE[k - 1], WHOLE_LIFE[k]);
    }
  }

  lemma LifeAt(s: PackageState)
    requires s == Pending || (0 < Stage(s) && s != Struggling && s != Escalating)
    ensures Stage(s) < |WHOLE_LIFE| && WHOLE_LIFE[Stage(s)] == s
  {
  }

  /** No state is out of reach. */
  lemma EveryStateIsReachable(s: PackageState)
    ensures Reaches(LEGAL, Pending, s)
  {
    match s
    case Struggling | Escalating =>
      WholeLife(3);
      ReachOn(LEGAL, Pending, Executing, Struggling);
      ReachOn(LEGAL, Pending, Struggling, Escalating);
    case Reverted =>
      WholeLife(10);
      ReachOn(LEGAL, Pending, Integrated, Reverted);
    case Quarantined | Cancelled | Failed | Rejected =>
      ReachSelf(LEGAL, Pending);
      ReachOn(LEGAL, Pending, Pending, s);
    case _ =>
      LifeAt(s);
      WholeLife(Stage(s));
  }
}
