/** The guarantees of restart recovery over every run. */
module RecoveryTheorems {
  import opened Bytes
  import E = EffectStates
  import opened EffectRecovery
  import opened RecoveryInvariants
  import opened RecoveryRuns

  /** Whatever executors, crashes, authority moves, broker moves, foreign
      writes and late pushes a run interleaves: every claim row is valid,
      generations count up, one claim at most is active, the retry is reserved
      at most once over all successors, at most four non-invalidating edges
      are applied, and the ref is set at most once. */
  lemma RecoveryIsSafe(s: Sys, steps: seq<Step>)
    requires Init(s)
    ensures var t := Run(s, steps);
      && (forall k | 0 <= k < |t.db.claims| :: DispositionStateIsValid(t.db.claims[k]) && t.db.claims[k].generation == k + 1)
      && (forall j | 0 <= j < |t.db.claims| - 1 :: t.db.claims[j].disposition.Invalidated?)
      && (forall k | 0 <= k < |t.db.claims| :: t.db.claims[k].retries <= MAX_CREATE_RECOVERY_RETRIES)
      && Reservations(t.db.log) <= 1
      && Edges(t.db.log) <= 4
      && t.writes <= 1
      && (t.pushes != [] ==> Reservations(t.db.log) == 1)
  {
    RunKeeps(s, steps);
    var t := Run(s, steps);
    BudgetIsOne(t.db);
    if t.pushes != [] { assert t.pushes[0] in t.pushes && SpentBy(t.db, t.pushes[0]); }
  }

  /** The verdict a run settles on is the truth about the ref at every later
      moment of the run. */
  lemma SettledTellsTheTruth(s: Sys, steps: seq<Step>, k: nat)
    requires Init(s) && k < |Run(s, steps).db.claims|
    ensures var t := Run(s, steps);
      && (t.db.claims[k].disposition.Adopted? ==> t.remote == Some(s.desired))
      && (t.db.claims[k].disposition.Orphaned? ==> t.remote.Some? && t.remote.value != s.desired)
  {
    RunKeeps(s, steps);
    DesiredIsFixed(s, steps);
  }

  lemma {:induction false} DesiredIsFixed(s: Sys, steps: seq<Step>)
    ensures Run(s, steps).desired == s.desired
    ensures s.remote.Some? ==> Run(s, steps).remote == s.remote
    decreases |steps|
  {
    if steps != [] { DesiredIsFixed(Do(s, steps[0]), steps[1..]); }
  }

  /** A value in the ref is never overwritten. */
  lemma RefIsWriteOnce(s: Sys, before: seq<Step>, after: seq<Step>)
    requires Run(s, before).remote.Some?
    ensures Run(s, before + after).remote == Run(s, before).remote
  {
    RunConcat(s, before, after);
    DesiredIsFixed(Run(s, before), after);
  }

  lemma {:induction false} RunConcat(s: Sys, a: seq<Step>, b: seq<Step>)
    ensures Run(s, a + b) == Run(Run(s, a), b)
    decreases |a|
  {
    if a == [] {
      assert a + b == b;
    } else {
      assert (a + b)[0] == a[0] && (a + b)[1..] == a[1..] + b;
      RunConcat(Do(s, a[0]), a[1..], b);
    }
  }

  lemma RunOne(s: Sys, step: Step)
    ensures Run(s, [step]) == Do(s, step)
  {
  }

  lemma RunLast(s: Sys, steps: seq<Step>)
    requires steps != []
    ensures Run(s, steps) == Do(Run(s, steps[..|steps| - 1]), steps[|steps| - 1])
  {
    var front, last := steps[..|steps| - 1], steps[|steps| - 1];
    assert steps == front + [last];
    RunConcat(s, front, [last]);
    RunOne(Run(s, front), last);
  }

  // ---- who is answered ------------------------------------------------------

  /** A claim is handed out only to the live lease's holder, under current
      epochs and after the original attempt, and it is the one active row. */
  lemma AdmittedHoldsTheLease(db: Db, a: Authority)
    requires Inv(db) && Admit(db, a).1.Ok? && Admit(db, a).1.value.Some?
    ensures var (db', c) := (Admit(db, a).0, Admit(db, a).1.value.value);
      && db'.claims != [] && c == db'.claims[|db'.claims| - 1] && Active(c.disposition)
      && c.authority == a && ClaimIsCurrent(c, db.cur) && HoldsLease(a, db.cur)
      && db'.intent.Some? && Synced(c, db'.intent.value)
      && a.owner.fence > db'.intent.value.fence && a.owner.attempt != db'.intent.value.attempt
  {
    OnlyLastIsActive(db.claims);
  }

  /** Readback answers a claim exactly to the current owner of the last row,
      nothing when no row is active, a conflict to another owner, and staleness
      to an owner whose authority is not the current one. */
  lemma ReadbackIsExact(db: Db, a: Authority, c: Claim)
    requires Inv(db)
    ensures Readback(db, a) == Ok(Some(c)) <==>
      && db.claims != [] && c == db.claims[|db.claims| - 1]
      && Active(c.disposition) && c.authority == a && ClaimIsCurrent(c, db.cur)
    ensures var held := db.claims != [] && Active(db.claims[|db.claims| - 1].disposition);
      && (Readback(db, a) == Ok(None) <==> !held)
      && (Readback(db, a) == Err(ClaimConflict) <==> held && db.claims[|db.claims| - 1].authority.owner != a.owner)
      && (Readback(db, a) == Err(StaleAuthority) <==>
            && held && db.claims[|db.claims| - 1].authority.owner == a.owner
            && (db.claims[|db.claims| - 1].authority != a || !ClaimIsCurrent(db.claims[|db.claims| - 1], db.cur)))
  {
  }

  /** A transition is answered only to the claim's own current authority, on
      an edge of the table, and the answer is the stored row. */
  lemma ApplyAnswersTheOwner(db: Db, r: Request, a: Authority)
    requires Inv(db) && Apply(db, r, a).1.Ok?
    ensures var (db', c) := (Apply(db, r, a).0, Apply(db, r, a).1.value);
      && 0 < r.generation <= |db'.claims| && c == db'.claims[r.generation - 1]
      && c.disposition == r.to && Edge(r.from, r.to)
      && r.authority == a && c.authority == a && ClaimIsCurrent(c, db.cur)
      && (db' != db ==> db'.log == db.log + [r] && r.from == db.claims[r.generation - 1].disposition)
  {
  }

  // ---- settled claims are final -------------------------------------------

  ghost predicate IsSettled(db: Db) {
    db.claims != [] && Settled(db.claims[|db.claims| - 1].disposition)
  }

  lemma AdmitAfterSettled(db: Db, a: Authority)
    requires Inv(db) && IsSettled(db)
    ensures Admit(db, a).0.claims == db.claims && !(Admit(db, a).1.Ok? && Admit(db, a).1.value.Some?)
  {
  }

  lemma ApplyAfterSettled(db: Db, r: Request, a: Authority)
    requires Inv(db) && IsSettled(db)
    ensures Apply(db, r, a).0 == db
  {
  }

  lemma StepAfterSettled(db: Db, k: DbWrite)
    requires Inv(db) && IsSettled(db)
    ensures DbAfter(db, k).claims == db.claims
  {
    match k
    case Same =>
    case ByClaim(a) => AdmitAfterSettled(db, a);
    case ByRequest(r) => ApplyAfterSettled(db, r, r.authority);
    case ByMove(_) =>
    case ByBroker(_) =>
  }

  /** Once a claim is adopted, orphaned or quarantined, no step of any later
      run admits another claim or touches a claim row. */
  lemma {:induction false} SettledIsFinal(s: Sys, steps: seq<Step>)
    requires SysInv(s) && IsSettled(s.db)
    ensures Run(s, steps).db.claims == s.db.claims
    decreases |steps|
  {
    if steps != [] {
      DbOf(s, steps[0]);
      StepAfterSettled(s.db, WriteOf(s, steps[0]));
      StepKeeps(s, steps[0]);
      SettledIsFinal(Do(s, steps[0]), steps[1..]);
    }
  }

  // ---- refinement of the effect machine -----------------------------------

  ghost predicate Refines(db: Db, db': Db) {
    && (db.intent.Some? <==> db'.intent.Some?)
    && (db.intent.Some? ==> E.Reaches(db.intent.value.state, db'.intent.value.state))
  }

  /** Each disposition edge is a path of legal effect edges. */
  lemma EdgeIsRealised(c: Claim, to: Disposition)
    requires RowCheck(c) && Edge(c.disposition, to)
    ensures E.Reaches(c.state, TargetState(c, to))
  {
    E.ReachSelf(c.state);
    E.ReachSelf(E.OutcomeUnknown);
    if c.state.Dispatching? { E.ReachEdge(E.Dispatching, E.OutcomeUnknown); }
    E.ReachEdge(E.OutcomeUnknown, E.Dispatching);
    E.ReachEdge(E.OutcomeUnknown, E.Verified);
    E.ReachEdge(E.Verified, E.Committed);
    E.ReachTrans(E.OutcomeUnknown, E.Verified, E.Committed);
    E.ReachEdge(E.OutcomeUnknown, E.OrphanedRemote);
    E.ReachEdge(E.OutcomeUnknown, E.Quarantined);
    assert Active(c.disposition);
    assert E.Reaches(c.state, E.OutcomeUnknown);
    if !to.Invalidated? { E.ReachTrans(c.state, E.OutcomeUnknown, TargetState(c, to)); }
  }

  lemma ApplyRefines(db: Db, r: Request, a: Authority)
    requires Inv(db)
    ensures Refines(db, Apply(db, r, a).0)
  {
    if db.intent.Some? {
      E.ReachSelf(db.intent.value.state);
      var (db', out) := Apply(db, r, a);
      if db' != db && out.Ok? {
        EdgeIsRealised(db.claims[r.generation - 1], r.to);
      }
    }
  }

  lemma AdmitRefines(db: Db, a: Authority)
    requires Inv(db)
    ensures Refines(db, Admit(db, a).0)
  {
    if db.intent.Some? {
      var i := db.intent.value;
      E.ReachSelf(i.state);
      if E.Edge(i.state, E.OutcomeUnknown) { E.ReachEdge(i.state, E.OutcomeUnknown); }
      AdmitCases(db, a);
      if Admit(db, a).0 != db { IssueNormalizes(Vacate(db), i, a); }
    }
  }

  lemma IssueNormalizes(db: Db, i: Intent, a: Authority)
    requires db.intent == Some(i) && Issue(db, i, a).Ok?
    ensures var i' := Issue(db, i, a).value.0.intent;
      i' == Some(i) || (i'.Some? && i'.value.state == E.OutcomeUnknown && E.Unresolved(i.state))
  {
  }

  lemma BrokerRefines(i: Intent, to: E.EffectState)
    ensures E.Reaches(i.state, BrokerMove(i, to).state)
  {
    E.ReachSelf(i.state);
    if E.Edge(i.state, to) { E.ReachEdge(i.state, to); }
  }

  lemma StepRefines(db: Db, k: DbWrite)
    requires Inv(db)
    ensures Refines(db, DbAfter(db, k))
  {
    if db.intent.Some? { E.ReachSelf(db.intent.value.state); }
    match k
    case Same =>
    case ByClaim(a) => AdmitRefines(db, a);
    case ByRequest(r) => ApplyRefines(db, r, r.authority);
    case ByMove(_) =>
    case ByBroker(to) => if db.intent.Some? { BrokerRefines(db.intent.value, to); }
  }

  function IntentState(s: Sys): Option<E.EffectState> {
    if s.db.intent.Some? then Some(s.db.intent.value.state) else None
  }

  /** The intent's state before the first step and after each one. */
  function Trace(s: Sys, steps: seq<Step>): (trace: seq<Option<E.EffectState>>)
    ensures |trace| == |steps| + 1
  {
    if steps == [] then [IntentState(s)] else Trace(s, steps[..|steps| - 1]) + [IntentState(Run(s, steps))]
  }

  /** The walk `p` visits the states of the trace in order: the i-th at
      position `at[i]`, the first at its start and the last at its end. */
  ghost predicate Follows(p: seq<E.EffectState>, at: seq<nat>, trace: seq<Option<E.EffectState>>) {
    && E.Path(p) && |at| == |trace| > 0 && at[0] == 0 && at[|at| - 1] == |p| - 1
    && (forall i | 0 <= i < |at| :: at[i] < |p| && trace[i] == Some(p[at[i]]))
    && (forall i, j | 0 <= i < j < |at| :: at[i] <= at[j])
  }

  lemma FollowsOn(p: seq<E.EffectState>, at: seq<nat>, trace: seq<Option<E.EffectState>>, q: seq<E.EffectState>)
    requires Follows(p, at, trace) && E.Path(q) && p[|p| - 1] == q[0]
    ensures var r := p + q[1..]; Follows(r, at + [|r| - 1], trace + [Some(q[|q| - 1])])
  {
  }

  ghost predicate Walked(trace: seq<Option<E.EffectState>>) { exists p, at :: Follows(p, at, trace) }

  lemma WalkOn(trace: seq<Option<E.EffectState>>, x: E.EffectState, y: E.EffectState)
    requires Walked(trace) && trace != [] && trace[|trace| - 1] == Some(x) && E.Reaches(x, y)
    ensures Walked(trace + [Some(y)])
  {
    var p, at :| Follows(p, at, trace);
    var q :| E.Walks(q, x, y);
    FollowsOn(p, at, trace, q);
  }

  /** Every run is a refinement of the effect machine, step by step: one walk of
      legal effect edges visits every intent state of the run, in order. */
  lemma {:induction false} RunRefinesEffectMachine(s: Sys, steps: seq<Step>)
    requires SysInv(s) && s.db.intent.Some?
    ensures Run(s, steps).db.intent.Some? && Walked(Trace(s, steps))
    decreases |steps|
  {
    if steps == [] {
      var at: seq<nat> := [0];
      assert Follows([s.db.intent.value.state], at, Trace(s, steps));
    } else {
      var front, last := steps[..|steps| - 1], steps[|steps| - 1];
      var mid := Run(s, front);
      RunRefinesEffectMachine(s, front);
      RunKeeps(s, front);
      RunLast(s, steps);
      DbOf(mid, last);
      StepRefines(mid.db, WriteOf(mid, last));
      LastOfTrace(s, front);
      WalkOn(Trace(s, front), mid.db.intent.value.state, Do(mid, last).db.intent.value.state);
    }
  }

  lemma LastOfTrace(s: Sys, steps: seq<Step>)
    ensures Trace(s, steps)[|steps|] == IntentState(Run(s, steps))
  {
  }

  /** On every such walk, between a moment of the run that is not committed and
      a later one that is, the effect is verified. */
  lemma CommitPassesVerified(p: seq<E.EffectState>, at: seq<nat>, trace: seq<Option<E.EffectState>>, i: nat, j: nat)
    requires Follows(p, at, trace) && i < j < |trace| && trace[i] != Some(E.Committed) && trace[j] == Some(E.Committed)
    ensures exists m :: at[i] <= m < at[j] && p[m] == E.Verified
  {
    assert at[i] <= at[j] && trace[i] == Some(p[at[i]]) && trace[j] == Some(p[at[j]]);
    var m := at[j] - 1;
    assert E.Edge(p[m], p[m + 1]);
  }

  // ---- retries are counted --------------------------------------------------

  /** The step is the broker dispatching again from an unknown outcome. */
  predicate Redispatches(s: Sys, step: Step) {
    step.BrokerStep? && step.to.Dispatching? && IntentState(s) == Some(E.OutcomeUnknown)
  }

  function BrokerRetries(s: Sys, steps: seq<Step>): nat
    decreases |steps|
  {
    if steps == [] then 0
    else (if Redispatches(s, steps[0]) then 1 else 0) + BrokerRetries(Do(s, steps[0]), steps[1..])
  }

  lemma WriteCounts(db: Db, k: DbWrite)
    requires Inv(db) && db.intent.Some?
    ensures var db' := DbAfter(db, k);
      && db'.intent.Some?
      && db'.intent.value.retries + Reservations(db.log) ==
         db.intent.value.retries + Reservations(db'.log)
         + if k.ByBroker? && k.to.Dispatching? && db.intent.value.state.OutcomeUnknown? then 1 else 0
  {
    match k
    case ByRequest(r) => ApplyCounts(db, r);
    case ByClaim(a) =>
      AdmitCases(db, a);
      VacateKeeps(db);
      if Admit(db, a).0 != db { IssueCounts(Vacate(db), db.intent.value, a); }
    case _ =>
  }

  lemma IssueCounts(db: Db, i: Intent, a: Authority)
    requires db.intent == Some(i) && Issue(db, i, a).Ok?
    ensures var db' := Issue(db, i, a).value.0;
      db'.log == db.log && db'.intent.Some? && db'.intent.value.retries == i.retries
  {
  }

  lemma ApplyCounts(db: Db, r: Request)
    requires Inv(db) && db.intent.Some?
    ensures var db' := Apply(db, r, r.authority).0;
      && db'.intent.Some?
      && db'.intent.value.retries + Reservations(db.log) == db.intent.value.retries + Reservations(db'.log)
  {
    var (db', out) := Apply(db, r, r.authority);
    if db' != db && out.Ok? {
      assert RowOk(db.claims[r.generation - 1]);
      assert db'.log[..|db'.log| - 1] == db.log;
    }
  }

  /** What the retry count owes to other things than reservations. */
  function Unreserved(s: Sys): int {
    (if s.db.intent.Some? then s.db.intent.value.retries else 0) - Reservations(s.db.log)
  }

  lemma StepCounts(s: Sys, step: Step)
    requires SysInv(s) && s.db.intent.Some?
    ensures Do(s, step).db.intent.Some?
    ensures Unreserved(Do(s, step)) == Unreserved(s) + if Redispatches(s, step) then 1 else 0
  {
    DbOf(s, step);
    WriteCounts(s.db, WriteOf(s, step));
  }

  /** Along every run the intent's retry count rises by one for each reservation
      and each redispatch of the broker, and by nothing else. */
  lemma {:induction false} RetriesAreCounted(s: Sys, steps: seq<Step>)
    requires SysInv(s) && s.db.intent.Some?
    ensures Run(s, steps).db.intent.Some? && Unreserved(Run(s, steps)) == Unreserved(s) + BrokerRetries(s, steps)
    decreases |steps|
  {
    if steps != [] {
      StepCounts(s, steps[0]);
      StepKeeps(s, steps[0]);
      RetriesAreCounted(Do(s, steps[0]), steps[1..]);
    }
  }

  // ---- replay of a lost answer --------------------------------------------

  lemma {:induction false} CountOfFresh(log: seq<Request>, r: Request)
    requires r !in log
    ensures Count(log, r) == 0
  {
    if log != [] { CountOfFresh(log[..|log| - 1], r); }
  }

  lemma AppliedOnce(db: Db, r: Request, a: Authority)
    requires Inv(db) && Apply(db, r, a).1.Ok? && Apply(db, r, a).0 != db
    ensures Count(Apply(db, r, a).0.log, r) == 1
  {
    var db' := Apply(db, r, a).0;
    var c := db.claims[r.generation - 1];
    var desired := db.intent.value.desired;
    forall e | e in db.log
      ensures e != r
    {
      if e.generation == r.generation { UpdatedEvents(e, c, r, a, desired); }
    }
    CountOfFresh(db.log, r);
    assert db'.log[..|db'.log| - 1] == db.log;
  }

  /** Repeating an applied request returns the same claim and changes nothing,
      except when it invalidated a claim with its retry reserved: that row
      keeps the absence receipt, which the request does not carry. */
  lemma ReplayReturnsTheClaim(db: Db, r: Request, a: Authority)
    requires Inv(db) && Apply(db, r, a).1.Ok? && Apply(db, r, a).0 != db
    ensures var (db', out) := Apply(db, r, a);
      && Apply(db', r, a).0 == db'
      && (Apply(db', r, a).1 == out <==> !(r.to.Invalidated? && r.from.RetryReserved?))
  {
    var (db', out) := Apply(db, r, a);
    var c := db.claims[r.generation - 1];
    UpdatedRow(c, r, a, db.intent.value.desired);
    AppliedOnce(db, r, a);
    assert RowOk(c);
    assert db'.claims[r.generation - 1] == out.value;
  }

  // ---- what the contract does not promise ---------------------------------

  ghost function SampleAuthority(): Authority { Authority(Owner(1, 1, 2, 2, 1, 1), 1, Epochs(1, 0, 0)) }

  ghost function SampleCurrent(): Current {
    Current(Epochs(1, 0, 0), 1, false, Some(Lease(SampleAuthority().owner, true, Epochs(1, 0, 0), 1)))
  }

  ghost function SampleClaim(): Claim {
    Claim(1, SampleAuthority(), 1, E.OutcomeUnknown, 0, Claimed, None, None, None, Outbox(Pending, false, false))
  }

  ghost function SampleReserved(): Claim {
    Claim(1, SampleAuthority(), 1, E.Dispatching, 1, RetryReserved, None, Some(Absent), None, Outbox(Applied, true, false))
  }

  ghost function SampleRequest(): Request {
    Request(1, SampleAuthority(), Claimed, RetryReserved, Some(Observe(None, 7)), None)
  }

  ghost function SampleIntent(state: E.EffectState, retries: nat): Intent { Intent(1, 1, 7, true, state, retries) }

  ghost function SampleSys(db: Db, pc: Pc): Sys {
    Sys(db, 7, None, 0, 0, [], map[0 := Proc(SampleAuthority(), pc)])
  }

  ghost function SampleFresh(): Db { Db(Some(SampleIntent(E.Dispatching, 0)), [], [], SampleCurrent()) }

  ghost function SampleClaimed(): Db {
    Db(Some(SampleIntent(E.OutcomeUnknown, 0)), [SampleClaim()], [], SampleCurrent())
  }

  ghost function SampleSpent(): Db {
    Db(Some(SampleIntent(E.Dispatching, 1)), [SampleReserved()], [SampleRequest()], SampleCurrent())
  }

  lemma SampleAdmit()
    ensures Do(SampleSys(SampleFresh(), Idle), ClaimStep(0)) == SampleSys(SampleClaimed(), HasClaim(SampleClaim()))
  {
  }

  lemma SampleReserve()
    ensures Do(SampleSys(SampleClaimed(), Read(SampleClaim(), None)), SettleStep(0))
         == SampleSys(SampleSpent(), ToRetry(SampleReserved()))
  {
  }

  lemma SampleClear()
    ensures Do(SampleSys(SampleSpent(), ToRetry(SampleReserved())), ClearStep(0))
         == SampleSys(SampleSpent(), Cleared(SampleReserved()))
  {
  }

  /** A first claim, reserved after an absent readback and cleared to push. */
  lemma ReservedRun() returns (s: Sys, steps: seq<Step>)
    ensures Init(s)
    ensures Run(s, steps) == SampleSys(SampleSpent(), Cleared(SampleReserved()))
  {
    s := SampleSys(SampleFresh(), Idle).(procs := map[]);
    steps := [Start(0, SampleAuthority()), ClaimStep(0), ReadStep(0, true), SettleStep(0), ClearStep(0)];
    RunFive(s, steps);
    assert Do(s, steps[0]) == SampleSys(SampleFresh(), Idle);
    SampleAdmit();
    assert Do(SampleSys(SampleClaimed(), HasClaim(SampleClaim())), steps[2]) == SampleSys(SampleClaimed(), Read(SampleClaim(), None));
    SampleReserve();
    SampleClear();
  }

  lemma RunFive(s: Sys, steps: seq<Step>)
    requires |steps| == 5
    ensures Run(s, steps) == Do(Do(Do(Do(Do(s, steps[0]), steps[1]), steps[2]), steps[3]), steps[4])
  {
    var s1 := Do(s, steps[0]);
    var s2 := Do(s1, steps[1]);
    var s3 := Do(s2, steps[2]);
    var s4 := Do(s3, steps[3]);
    assert steps[1..][1..] == steps[2..] && steps[2..][1..] == steps[3..] && steps[3..][1..] == steps[4..] && steps[4..][1..] == [];
    assert Run(s, steps) == Run(s1, steps[1..]);
    assert Run(s1, steps[1..]) == Run(s2, steps[2..]);
    assert Run(s2, steps[2..]) == Run(s3, steps[3..]);
    assert Run(s3, steps[3..]) == Run(s4, steps[4..]);
    assert Run(s4, steps[4..]) == Run(Do(s4, steps[4]), []);
  }

  /** Ownership is checked when the claim is read back, not when the push is
      sent: an owner replaced in between still pushes. */
  lemma PushMayOutliveOwnership() returns (s: Sys, steps: seq<Step>)
    ensures Init(s)
    ensures var t := Run(s, steps); t.pushes == [1] && t.db.claims != [] && t.db.claims[|t.db.claims| - 1].disposition.Invalidated?
  {
    var before;
    s, before := ReservedRun();
    var t := Run(s, before);
    var move := MoveStep(t.db.cur.(lease := None));
    RunConcat(s, before, [move]);
    RunOne(t, move);
    var t1 := Do(t, move);
    assert ActiveIndex(t.db.claims) == Some(0);
    RunConcat(s, before + [move], [PushStep(0)]);
    RunOne(t1, PushStep(0));
    steps := before + [move] + [PushStep(0)];
  }

  lemma SampleReadmit(t: Sys)
    requires t.db == SampleSpent() && t.remote == None && t.desired == 7 && t.procs == map[0 := Proc(SampleAuthority(), Idle)]
    ensures Do(Do(Do(Do(t, ClaimStep(0)), ReadStep(0, true)), SettleStep(0)), ClearStep(0))
         == t.(procs := map[0 := Proc(SampleAuthority(), Cleared(SampleReserved()))])
  {
  }

  /** The budget bounds reservations, not pushes: a crashed executor pushes
      the reserved retry again while the ref still reads absent. */
  lemma ReservedRetryMayBePushedTwice() returns (s: Sys, steps: seq<Step>)
    ensures Init(s)
    ensures var t := Run(s, steps); t.pushes == [1, 1] && Reservations(t.db.log) == 1
  {
    var before;
    s, before := ReservedRun();
    var t := Run(s, before);
    var c, a := SampleReserved(), SampleAuthority();
    var t1 := Do(t, PushStep(0));
    var again := [Start(0, a), ClaimStep(0), ReadStep(0, true), SettleStep(0), ClearStep(0)];
    var t2 := Do(t1, again[0]);
    SampleReadmit(t2);
    RunFive(t1, again);
    RunOne(t, PushStep(0));
    RunConcat(s, before, [PushStep(0)]);
    RunConcat(s, before + [PushStep(0)], again);
    RunOne(Run(t1, again), PushStep(0));
    RunConcat(s, before + [PushStep(0)] + again, [PushStep(0)]);
    steps := before + [PushStep(0)] + again + [PushStep(0)];
    RecoveryIsSafe(s, steps);
  }
}
