/** The life of an attempt: over every run of the ledger each step moves it along
    one legal edge or not at all, and it succeeds only after running and
    preparing. */
module AttemptStages {
  import opened Bytes
  import opened Paths
  import opened WriterLease
  import opened WriterLeaseRuns

  predicate Moves(from: AttemptState, to: AttemptState) { from == to || Transition(from, to) }

  const MOVES: (AttemptState, AttemptState) -> bool := (a, b) => Moves(a, b)

  function Stage(s: AttemptState): nat {
    match s
    case Starting => 1
    case Running | Paused | Checkpointing => 2
    case Preparing => 3
    case Succeeded => 4
    case _ => 0
  }

  lemma OneStageAtATime()
    ensures Steady(MOVES, Stage)
  {
  }

  function StateOf(l: Ledger, id: Buf): AttemptState { if id in l.attempts then l.attempts[id].state else Created }

  // ---- one step --------------------------------------------------------------

  lemma ReclaimMoves(l: Ledger, v: Buf, id: Buf)
    requires v in l.leases && id in l.attempts
    ensures var m := Reclaim(l, v).1;
      && id in m.attempts
      && (StateOf(m, id) == StateOf(l, id) || (Live(StateOf(l, id)) && StateOf(m, id) == Crashed))
  {
  }

  /** However many leases expire at once, an attempt crashes once. */
  lemma {:induction false} ExpireMoves(l: Ledger, due: seq<Buf>, id: Buf)
    requires id in l.attempts
    ensures var m := ExpireAll(l, due).1;
      && id in m.attempts
      && (StateOf(m, id) == StateOf(l, id) || (Live(StateOf(l, id)) && StateOf(m, id) == Crashed))
    decreases |due|
  {
    if due != [] {
      ExpireMoves(l, due[..|due| - 1], id);
      var m, v := ExpireAll(l, due[..|due| - 1]).1, due[|due| - 1];
      if v in m.leases { ReclaimMoves(m, v, id); }
    }
  }

  lemma CommitMoves(l: Ledger, q: LeaseRequest, id: Buf)
    requires id in l.attempts && GrantError(l, q) == None
    ensures id in Commit(l, q).attempts && StateOf(Commit(l, q), id) == StateOf(l, id)
  {
  }

  lemma AcquireMoves(l: Ledger, q: LeaseRequest, id: Buf)
    requires id in l.attempts
    ensures id in Acquire(l, q).1.attempts && Moves(StateOf(l, id), StateOf(Acquire(l, q).1, id))
  {
    if q.variant in l.leases { ReclaimMoves(l, q.variant, id); }
    var m := ReclaimExpired(l, q.variant).1;
    if GrantError(m, q) == None { CommitMoves(m, q, id); }
  }

  lemma StepMoves(l: Ledger, step: Step, id: Buf)
    requires id in l.attempts
    ensures id in After(l, step).attempts && Moves(StateOf(l, id), StateOf(After(l, step), id))
  {
    match step
    case DoAcquire(q) => AcquireMoves(l, q, id);
    case DoExpire(due) => ExpireMoves(l, due, id);
    case _ =>
  }

  // ---- runs --------------------------------------------------------------------

  /** The attempt's state before the first step and after each one. */
  ghost function States(w: World, steps: seq<Step>, id: Buf): (p: seq<AttemptState>)
    ensures |p| == |steps| + 1
  {
    seq(|steps| + 1, k requires 0 <= k <= |steps| => StateOf(Run(w, steps[..k]).ledger, id))
  }

  lemma {:induction false} StillThere(w: World, steps: seq<Step>, id: Buf)
    requires id in w.ledger.attempts
    ensures id in Run(w, steps).ledger.attempts
    decreases |steps|
  {
    if steps != [] {
      StillThere(w, steps[..|steps| - 1], id);
      StepMoves(Run(w, steps[..|steps| - 1]).ledger, steps[|steps| - 1], id);
    }
  }

  /** Along every run an attempt moves one legal edge at a time. */
  lemma StatesArePath(w: World, steps: seq<Step>, id: Buf)
    requires id in w.ledger.attempts
    ensures Path(MOVES, States(w, steps, id))
  {
    var p := States(w, steps, id);
    forall k | 0 <= k < |p| - 1
      ensures MOVES(p[k], p[k + 1])
    {
      var front := steps[..k + 1];
      assert front[..|front| - 1] == steps[..k];
      StillThere(w, steps[..k], id);
      StepMoves(Run(w, steps[..k]).ledger, steps[k], id);
    }
  }

  lemma EntersRunning(p: seq<AttemptState>) returns (i: nat)
    requires Path(MOVES, p) && p[0].Starting? && Stage(p[|p| - 1]) > 1
    ensures 0 < i < |p| && p[i].Running? && forall k | i <= k < |p| :: Stage(p[k]) > 1
  {
    OneStageAtATime();
    i := VisitsEveryStage(MOVES, Stage, p, 1);
    assert MOVES(p[i], p[i + 1]);
    i := i + 1;
  }

  lemma RunsThenPrepares(p: seq<AttemptState>) returns (i: nat, j: nat)
    requires Path(MOVES, p) && p[0].Starting? && p[|p| - 1].Succeeded?
    ensures i < j < |p| - 1 && p[i].Running? && p[j].Preparing?
  {
    OneStageAtATime();
    i := EntersRunning(p);
    var k := VisitsEveryStage(MOVES, Stage, p, 2);
    j := VisitsEveryStage(MOVES, Stage, p, 3);
    assert i <= k < j;
  }

  /** The state of the attempt after the first k steps is s. */
  ghost predicate At(w: World, steps: seq<Step>, id: Buf, k: nat, s: AttemptState) {
    k <= |steps| && StateOf(Run(w, steps[..k]).ledger, id) == s
  }

  /** A granted attempt that succeeds, by its own update or by release, was
      running after some step and preparing after a later one. */
  lemma SuccessIsEarned(w: World, q: LeaseRequest, steps: seq<Step>)
    requires FreshGrant(w.ledger, q)
    requires var x := Do(w, DoAcquire(q)); StateOf(Run(x, steps).ledger, q.attempt).Succeeded?
    ensures var x := Do(w, DoAcquire(q));
      exists i: nat, j: nat :: i < j < |steps| && At(x, steps, q.attempt, i, Running) && At(x, steps, q.attempt, j, Preparing)
  {
    var x := Do(w, DoAcquire(q));
    GrantIsStarting(w.ledger, q);
    EarnedFrom(x, steps, q.attempt);
  }

  lemma GrantIsStarting(l: Ledger, q: LeaseRequest)
    requires FreshGrant(l, q)
    ensures q.attempt in Acquire(l, q).1.attempts && StateOf(Acquire(l, q).1, q.attempt).Starting?
  {
  }

  lemma EarnedFrom(x: World, steps: seq<Step>, id: Buf)
    requires id in x.ledger.attempts && StateOf(x.ledger, id).Starting? && StateOf(Run(x, steps).ledger, id).Succeeded?
    ensures exists i: nat, j: nat :: i < j < |steps| && At(x, steps, id, i, Running) && At(x, steps, id, j, Preparing)
  {
    assert steps[..0] == [] && steps[..|steps|] == steps;
    StatesArePath(x, steps, id);
    var i, j := RunsThenPrepares(States(x, steps, id));
    assert At(x, steps, id, i, Running) && At(x, steps, id, j, Preparing);
  }

  /** Every state but the first is within a granted attempt's reach. */
  lemma EveryStateIsReachable(s: AttemptState)
    requires !s.Created?
    ensures Reaches(MOVES, Starting, s)
  {
    ReachSelf(MOVES, Starting);
    ReachOn(MOVES, Starting, Starting, Running);
    ReachOn(MOVES, Starting, Running, Paused);
    ReachOn(MOVES, Starting, Running, Checkpointing);
    ReachOn(MOVES, Starting, Checkpointing, Preparing);
    ReachOn(MOVES, Starting, Preparing, Succeeded);
    if Transition(Starting, s) { ReachOn(MOVES, Starting, Starting, s); }
  }
}
