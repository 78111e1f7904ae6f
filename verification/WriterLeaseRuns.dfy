/** Single-writer safety over every run of the lease ledger. */
module WriterLeaseRuns {
  import opened Bytes
  import opened WriterLease
  import G = GraphDelta

  // ---- what every step keeps ----------------------------------------------------

  ghost predicate Bound(lease: Lease, a: Attempt) {
    && lease.variant == a.variant && lease.attempt == a.id && lease.fence == a.fence
    && lease.runner == a.runner && lease.epoch == a.epoch && lease.nonce == a.nonce
  }

  /** A live attempt is the holder of its variant. */
  ghost predicate AttemptOk(fences: map<Buf, nat>, leases: map<Buf, Lease>, id: Buf, a: Attempt) {
    && a.id == id && !a.state.Created?
    && a.variant in fences && a.fence <= fences[a.variant]
    && (Live(a.state) ==> a.variant in leases && leases[a.variant].attempt == id)
  }

  ghost predicate LeaseOk(now: nat, fences: map<Buf, nat>, attempts: map<Buf, Attempt>, v: Buf, lease: Lease) {
    && lease.variant == v && v in fences && lease.fence == fences[v]
    && lease.attempt in attempts && Bound(lease, attempts[lease.attempt])
    && lease.heartbeat <= now && lease.heartbeat < lease.expires
  }

  ghost predicate AttemptsOk(fences: map<Buf, nat>, leases: map<Buf, Lease>, attempts: map<Buf, Attempt>) {
    forall id | id in attempts :: AttemptOk(fences, leases, id, attempts[id])
  }

  ghost predicate LeasesOk(now: nat, fences: map<Buf, nat>, attempts: map<Buf, Attempt>, leases: map<Buf, Lease>) {
    forall v | v in leases :: LeaseOk(now, fences, attempts, v, leases[v])
  }

  ghost predicate Inv(l: Ledger) {
    AttemptsOk(l.fences, l.leases, l.attempts) && LeasesOk(l.now, l.fences, l.attempts, l.leases)
  }

  /** Attempts never vanish or change identity, a finished attempt stays
      finished, and no fence drops. */
  ghost predicate AttemptGrows(a: Attempt, b: Attempt) {
    SameIdentity(a, b) && a.id == b.id && (Final(a.state) ==> b.state == a.state)
  }

  ghost predicate AttemptsGrow(before: map<Buf, Attempt>, after: map<Buf, Attempt>) {
    forall id | id in before :: id in after && AttemptGrows(before[id], after[id])
  }

  ghost predicate FencesGrow(before: map<Buf, nat>, after: map<Buf, nat>) {
    forall v | v in before :: v in after && before[v] <= after[v]
  }

  ghost predicate Grows(l: Ledger, m: Ledger) {
    l.now <= m.now && AttemptsGrow(l.attempts, m.attempts) && FencesGrow(l.fences, m.fences)
  }

  lemma GrowsTrans(a: Ledger, b: Ledger, c: Ledger)
    requires Grows(a, b) && Grows(b, c)
    ensures Grows(a, c)
  {
  }

  // Updates of one row at a time.

  lemma AttemptPut(fences: map<Buf, nat>, leases: map<Buf, Lease>, attempts: map<Buf, Attempt>, id: Buf, a: Attempt)
    requires AttemptsOk(fences, leases, attempts) && AttemptOk(fences, leases, id, a)
    ensures AttemptsOk(fences, leases, attempts[id := a])
  {
  }

  lemma LeasesSeeAttempt(now: nat, fences: map<Buf, nat>, leases: map<Buf, Lease>, attempts: map<Buf, Attempt>, id: Buf,
                         a: Attempt)
    requires LeasesOk(now, fences, attempts, leases)
    requires id in attempts ==> SameIdentity(attempts[id], a) && attempts[id].id == a.id
    ensures LeasesOk(now, fences, attempts[id := a], leases)
  {
  }

  lemma AttemptsSeeLease(fences: map<Buf, nat>, leases: map<Buf, Lease>, attempts: map<Buf, Attempt>, v: Buf,
                         lease: Lease)
    requires AttemptsOk(fences, leases, attempts)
    requires v in leases ==> lease.attempt == leases[v].attempt
    ensures AttemptsOk(fences, leases[v := lease], attempts)
  {
  }

  lemma LeasePut(now: nat, fences: map<Buf, nat>, leases: map<Buf, Lease>, attempts: map<Buf, Attempt>, v: Buf,
                 lease: Lease)
    requires LeasesOk(now, fences, attempts, leases) && LeaseOk(now, fences, attempts, v, lease)
    ensures LeasesOk(now, fences, attempts, leases[v := lease])
  {
  }

  lemma LeaseDropped(fences: map<Buf, nat>, leases: map<Buf, Lease>, attempts: map<Buf, Attempt>, v: Buf)
    requires AttemptsOk(fences, leases, attempts) && v in leases
    requires leases[v].attempt in attempts ==> !Live(attempts[leases[v].attempt].state)
    ensures AttemptsOk(fences, leases - {v}, attempts)
  {
  }

  lemma FenceRaised(fences: map<Buf, nat>, leases: map<Buf, Lease>, attempts: map<Buf, Attempt>, v: Buf, fence: nat)
    requires AttemptsOk(fences, leases, attempts) && (v in fences ==> fences[v] <= fence)
    ensures AttemptsOk(fences[v := fence], leases, attempts)
  {
  }

  lemma OtherLeasesKeepFence(now: nat, fences: map<Buf, nat>, leases: map<Buf, Lease>, attempts: map<Buf, Attempt>, v: Buf,
                             fence: nat)
    requires LeasesOk(now, fences, attempts, leases) && v !in leases
    ensures LeasesOk(now, fences[v := fence], attempts, leases)
  {
  }

  lemma AttemptsGrowBy(attempts: map<Buf, Attempt>, id: Buf, a: Attempt)
    requires id in attempts ==> AttemptGrows(attempts[id], a)
    ensures AttemptsGrow(attempts, attempts[id := a])
  {
  }

  lemma CloseKeeps(l: Ledger, v: Buf, id: Buf, state: AttemptState)
    requires Inv(l) && v in l.leases && id == l.leases[v].attempt && id in l.attempts && Final(state)
    requires !Final(l.attempts[id].state)
    ensures Inv(Close(l, v, id, state)) && Grows(l, Close(l, v, id, state))
  {
    assert AttemptOk(l.fences, l.leases, id, l.attempts[id]);
    var a := l.attempts[id].(state := state);
    AttemptPut(l.fences, l.leases, l.attempts, id, a);
    LeaseDropped(l.fences, l.leases, l.attempts[id := a], v);
    LeasesSeeAttempt(l.now, l.fences, l.leases, l.attempts, id, a);
    AttemptsGrowBy(l.attempts, id, a);
  }

  lemma RequeueKeeps(l: Ledger, package: Buf)
    requires Inv(l)
    ensures Inv(Requeue(l, package).1) && Grows(l, Requeue(l, package).1)
  {
  }

  lemma ReclaimKeeps(l: Ledger, v: Buf)
    requires Inv(l) && v in l.leases
    ensures Inv(Reclaim(l, v).1) && Grows(l, Reclaim(l, v).1)
  {
    var id := l.leases[v].attempt;
    if Reclaim(l, v).1 != l {
      CloseKeeps(l, v, id, Crashed);
      RequeueKeeps(Close(l, v, id, Crashed), l.attempts[id].package);
      GrowsTrans(l, Close(l, v, id, Crashed), Reclaim(l, v).1);
    }
  }

  lemma ReclaimExpiredKeeps(l: Ledger, v: Buf)
    requires Inv(l)
    ensures var m := ReclaimExpired(l, v).1; Inv(m) && Grows(l, m) && m.attempts.Keys == l.attempts.Keys
  {
    if v in l.leases { ReclaimKeeps(l, v); }
  }

  lemma CommitKeeps(l: Ledger, q: LeaseRequest)
    requires Inv(l) && GrantError(l, q) == None && TtlOk(q.ttl)
    ensures Inv(Commit(l, q)) && Grows(l, Commit(l, q))
  {
    var g, fence := GrantFor(l, q, l.packageOf[q.variant]), NextFence(l, q.variant);
    var fences, leases := l.fences[q.variant := fence], l.leases[q.variant := g.lease];
    FenceRaised(l.fences, l.leases, l.attempts, q.variant, fence);
    AttemptsSeeLease(fences, l.leases, l.attempts, q.variant, g.lease);
    AttemptPut(fences, leases, l.attempts, q.attempt, g.attempt);
    OtherLeasesKeepFence(l.now, l.fences, l.leases, l.attempts, q.variant, fence);
    LeasesSeeAttempt(l.now, fences, l.leases, l.attempts, q.attempt, g.attempt);
    LeasePut(l.now, fences, l.leases, l.attempts[q.attempt := g.attempt], q.variant, g.lease);
    AttemptsGrowBy(l.attempts, q.attempt, g.attempt);
  }

  lemma AcquireKeeps(l: Ledger, q: LeaseRequest)
    requires Inv(l)
    ensures Inv(Acquire(l, q).1) && Grows(l, Acquire(l, q).1)
  {
    if TtlOk(q.ttl) && q.key !in l.commands {
      var (failed, m) := ReclaimExpired(l, q.variant);
      ReclaimExpiredKeeps(l, q.variant);
      if failed == None && GrantError(m, q) == None {
        CommitKeeps(m, q);
        GrowsTrans(l, m, Commit(m, q));
      }
    }
  }

  lemma HeartbeatKeeps(l: Ledger, q: HeartbeatRequest)
    requires Inv(l)
    ensures Inv(Heartbeat(l, q).1) && Grows(l, Heartbeat(l, q).1)
  {
    if Heartbeat(l, q).0 == None {
      var v, lease := q.variant, l.leases[q.variant].(heartbeat := l.now, expires := l.now + 1000 * q.ttl);
      assert LeaseOk(l.now, l.fences, l.attempts, v, l.leases[v]);
      AttemptsSeeLease(l.fences, l.leases, l.attempts, v, lease);
      LeasePut(l.now, l.fences, l.leases, l.attempts, v, lease);
    }
  }

  lemma ReleaseKeeps(l: Ledger, q: ReleaseRequest)
    requires Inv(l)
    ensures Inv(Release(l, q).1) && Grows(l, Release(l, q).1)
  {
    if Release(l, q).1 != l {
      var m := Close(l, q.variant, q.attempt, q.final);
      CloseKeeps(l, q.variant, q.attempt, q.final);
      RequeueKeeps(m, l.attempts[q.attempt].package);
      GrowsTrans(l, m, Requeue(m, l.attempts[q.attempt].package).1);
    }
  }

  lemma PutAttemptKeeps(l: Ledger, a: Attempt)
    requires Inv(l)
    ensures Inv(PutAttempt(l, a).1) && Grows(l, PutAttempt(l, a).1)
  {
    if PutAttempt(l, a).0 == None {
      assert AttemptOk(l.fences, l.leases, a.id, l.attempts[a.id]);
      AttemptPut(l.fences, l.leases, l.attempts, a.id, a);
      LeasesSeeAttempt(l.now, l.fences, l.leases, l.attempts, a.id, a);
      AttemptsGrowBy(l.attempts, a.id, a);
    }
  }

  lemma {:induction false} ExpireKeeps(l: Ledger, due: seq<Buf>)
    requires Inv(l)
    ensures Inv(ExpireAll(l, due).1) && Grows(l, ExpireAll(l, due).1)
    decreases |due|
  {
    if due != [] {
      ExpireKeeps(l, due[..|due| - 1]);
      var (e, m) := ExpireAll(l, due[..|due| - 1]);
      var v := due[|due| - 1];
      if e.None? && v in m.leases && m.leases[v].expires <= m.now {
        ReclaimKeeps(m, v);
        GrowsTrans(l, m, Reclaim(m, v).1);
      }
    }
  }

  // ---- runs -----------------------------------------------------------------------

  datatype Step =
    | DoAcquire(lease: LeaseRequest)
    | DoHeartbeat(heartbeat: HeartbeatRequest)
    | DoRelease(release: ReleaseRequest)
    | DoPutAttempt(attempt: Attempt)
    | DoExpire(due: seq<Buf>)
    | Advance(millis: nat)
    | MovePackages(packageOf: map<Buf, Buf>, states: map<Buf, G.PackageState>, ready: set<Buf>)

  /** A ledger and the fresh grants it has made, in order. */
  datatype World = World(ledger: Ledger, grants: seq<Attempt>)

  predicate FreshGrant(l: Ledger, q: LeaseRequest) { q.key !in l.commands && Acquire(l, q).0.Ok? }

  function After(l: Ledger, step: Step): Ledger {
    match step
    case DoAcquire(q) => Acquire(l, q).1
    case DoHeartbeat(q) => Heartbeat(l, q).1
    case DoRelease(q) => Release(l, q).1
    case DoPutAttempt(a) => PutAttempt(l, a).1
    case DoExpire(due) => ExpireAll(l, due).1
    case Advance(millis) => l.(now := l.now + millis)
    case MovePackages(packageOf, states, ready) => l.(packageOf := packageOf, states := states, ready := ready)
  }

  function Do(w: World, step: Step): World {
    World(After(w.ledger, step),
          if step.DoAcquire? && FreshGrant(w.ledger, step.lease)
          then w.grants + [Acquire(w.ledger, step.lease).0.value.attempt] else w.grants)
  }

  function Run(w: World, steps: seq<Step>): World
    decreases |steps|
  {
    if steps == [] then w else Do(Run(w, steps[..|steps| - 1]), steps[|steps| - 1])
  }

  ghost predicate Initial(w: World) {
    w.grants == [] && w.ledger.attempts == map[] && w.ledger.leases == map[] && w.ledger.commands == map[]
  }

  lemma AfterKeeps(l: Ledger, step: Step)
    requires Inv(l)
    ensures Inv(After(l, step)) && Grows(l, After(l, step))
  {
    match step
    case DoAcquire(q) => AcquireKeeps(l, q);
    case DoHeartbeat(q) => HeartbeatKeeps(l, q);
    case DoRelease(q) => ReleaseKeeps(l, q);
    case DoPutAttempt(a) => PutAttemptKeeps(l, a);
    case DoExpire(due) => ExpireKeeps(l, due);
    case Advance(millis) =>
      var m := After(l, step);
      forall v | v in m.leases
        ensures LeaseOk(m.now, m.fences, m.attempts, v, m.leases[v])
      {
        assert LeaseOk(l.now, l.fences, l.attempts, v, l.leases[v]);
      }
    case MovePackages(_, _, _) =>
  }

  /** A grant is recorded in the ledger, under a fence no higher than the
      variant's. */
  ghost predicate GrantKnown(l: Ledger, g: Attempt) {
    && g.id in l.attempts && SameIdentity(l.attempts[g.id], g)
    && g.variant in l.fences && g.fence <= l.fences[g.variant]
  }

  /** An earlier grant of a variant has the lower fence and is finished. */
  ghost predicate Succeeds(l: Ledger, g: Attempt, later: Attempt) {
    g.variant == later.variant ==>
      g.fence < later.fence && g.id in l.attempts && Final(l.attempts[g.id].state)
  }

  ghost predicate GrantsOk(l: Ledger, grants: seq<Attempt>) {
    && (forall i | 0 <= i < |grants| :: GrantKnown(l, grants[i]))
    && (forall i, j | 0 <= i < j < |grants| :: Succeeds(l, grants[i], grants[j]))
  }

  lemma GrantsStay(l: Ledger, m: Ledger, grants: seq<Attempt>)
    requires GrantsOk(l, grants) && Grows(l, m)
    ensures GrantsOk(m, grants)
  {
  }

  lemma FreshIsCommitted(l: Ledger, q: LeaseRequest) returns (m: Ledger)
    requires Inv(l) && FreshGrant(l, q)
    ensures Inv(m) && Grows(l, m) && GrantError(m, q) == None && Acquire(l, q).1 == Commit(m, q)
    ensures m.attempts.Keys == l.attempts.Keys
    ensures Acquire(l, q).0.value.attempt == GrantFor(m, q, m.packageOf[q.variant]).attempt
  {
    m := ReclaimExpired(l, q.variant).1;
    ReclaimExpiredKeeps(l, q.variant);
  }

  lemma GrantAdded(l: Ledger, grants: seq<Attempt>, q: LeaseRequest)
    requires Inv(l) && GrantsOk(l, grants) && GrantError(l, q) == None && TtlOk(q.ttl)
    ensures GrantsOk(Commit(l, q), grants + [GrantFor(l, q, l.packageOf[q.variant]).attempt])
  {
  }

  /** Every stored attempt is a recorded grant. */
  ghost predicate Recorded(attempts: map<Buf, Attempt>, grants: seq<Attempt>) {
    forall id | id in attempts :: IsGrant(grants, id)
  }

  ghost predicate IsGrant(grants: seq<Attempt>, id: Buf) { exists i | 0 <= i < |grants| :: grants[i].id == id }

  ghost predicate WorldOk(w: World) {
    Inv(w.ledger) && GrantsOk(w.ledger, w.grants) && Recorded(w.ledger.attempts, w.grants)
  }

  lemma {:induction false} ExpiryAddsNoAttempt(l: Ledger, due: seq<Buf>)
    ensures ExpireAll(l, due).1.attempts.Keys == l.attempts.Keys
    decreases |due|
  {
    if due != [] { ExpiryAddsNoAttempt(l, due[..|due| - 1]); }
  }

  /** Only a fresh grant adds an attempt. */
  lemma OnlyGrantsAddAttempts(l: Ledger, step: Step)
    requires !(step.DoAcquire? && FreshGrant(l, step.lease))
    ensures After(l, step).attempts.Keys == l.attempts.Keys
  {
    if step.DoExpire? { ExpiryAddsNoAttempt(l, step.due); }
    if step.DoAcquire? { RefusalAddsNoAttempt(l, step.lease); }
  }

  lemma RefusalAddsNoAttempt(l: Ledger, q: LeaseRequest)
    requires !FreshGrant(l, q)
    ensures Acquire(l, q).1.attempts.Keys == l.attempts.Keys
  {
  }

  lemma GrantRecorded(l: Ledger, grants: seq<Attempt>, q: LeaseRequest)
    requires Recorded(l.attempts, grants) && GrantError(l, q) == None
    ensures Recorded(Commit(l, q).attempts, grants + [GrantFor(l, q, l.packageOf[q.variant]).attempt])
  {
    var g := GrantFor(l, q, l.packageOf[q.variant]).attempt;
    var all, m := grants + [g], Commit(l, q).attempts;
    forall id | id in m
      ensures IsGrant(all, id)
    {
      if id == q.attempt {
        assert all[|grants|].id == id;
      } else {
        assert IsGrant(grants, id);
        var i :| 0 <= i < |grants| && grants[i].id == id;
        assert all[i].id == id;
      }
    }
  }

  lemma DoKeeps(w: World, step: Step)
    requires WorldOk(w)
    ensures WorldOk(Do(w, step)) && Grows(w.ledger, Do(w, step).ledger)
  {
    AfterKeeps(w.ledger, step);
    if step.DoAcquire? && FreshGrant(w.ledger, step.lease) {
      var m := FreshIsCommitted(w.ledger, step.lease);
      GrantsStay(w.ledger, m, w.grants);
      GrantAdded(m, w.grants, step.lease);
      GrantRecorded(m, w.grants, step.lease);
    } else {
      GrantsStay(w.ledger, After(w.ledger, step), w.grants);
      OnlyGrantsAddAttempts(w.ledger, step);
    }
  }

  lemma {:induction false} RunKeeps(w: World, steps: seq<Step>)
    requires WorldOk(w)
    ensures WorldOk(Run(w, steps)) && Grows(w.ledger, Run(w, steps).ledger)
    decreases |steps|
  {
    if steps != [] {
      RunKeeps(w, steps[..|steps| - 1]);
      var mid := Run(w, steps[..|steps| - 1]);
      DoKeeps(mid, steps[|steps| - 1]);
      GrowsTrans(w.ledger, mid.ledger, Run(w, steps).ledger);
    }
  }

  // ---- theorems ---------------------------------------------------------------------

  /** The check passes exactly the subject of an unexpired lease's live holder. */
  lemma PassesExactly(l: Ledger, s: Subject)
    requires Inv(l)
    ensures Passes(l, s) <==>
      && s.variant in l.leases && l.now < l.leases[s.variant].expires
      && var a := l.attempts[l.leases[s.variant].attempt]; Live(a.state) && s == SubjectOf(a)
  {
  }

  lemma {:induction false} RunConcat(w: World, a: seq<Step>, b: seq<Step>)
    ensures Run(w, a + b) == Run(Run(w, a), b)
    decreases |b|
  {
    if b == [] {
      assert a + b == a;
    } else {
      assert a + b == (a + b[..|b| - 1]) + [b[|b| - 1]];
      assert (a + b)[..|a + b| - 1] == a + b[..|b| - 1];
      RunConcat(w, a, b[..|b| - 1]);
    }
  }

  lemma RunOneMore(w: World, a: seq<Step>, step: Step)
    ensures Run(w, a + [step]) == Do(Run(w, a), step)
  {
  }

  /** Two attempts of a variant never share a fence, and the one with the
      lower fence is over. */
  lemma FencesTellApart(w: World, x: Buf, y: Buf)
    requires WorldOk(w) && x in w.ledger.attempts && y in w.ledger.attempts && x != y
    requires w.ledger.attempts[x].variant == w.ledger.attempts[y].variant
    requires w.ledger.attempts[x].fence <= w.ledger.attempts[y].fence
    ensures w.ledger.attempts[x].fence < w.ledger.attempts[y].fence && Final(w.ledger.attempts[x].state)
  {
  }

  /** What a passing subject says of the ledger it passed. */
  lemma PassingIsStored(l: Ledger, s: Subject)
    requires Inv(l) && Passes(l, s)
    ensures s.attempt in l.attempts && SubjectOf(l.attempts[s.attempt]) == s && Live(l.attempts[s.attempt].state)
    ensures s.variant in l.fences && s.fence == l.fences[s.variant]
  {
  }

  /** One writer over time. A subject that passes after `a` and one of the same
      variant that passes later, after `a + b`, are the same attempt under the
      same fence, or the later has the higher fence, the earlier attempt is
      over, and no subject naming it passes in any continuation `c`. */
  lemma OneWriter(w: World, a: seq<Step>, b: seq<Step>, c: seq<Step>, s: Subject, t: Subject, u: Subject)
    requires Initial(w)
    requires Passes(Run(w, a).ledger, s) && Passes(Run(w, a + b).ledger, t) && s.variant == t.variant
    requires u.attempt == s.attempt
    ensures b == [] ==> s == t
    ensures s.attempt == t.attempt ==> s.fence == t.fence
    ensures s.attempt != t.attempt ==>
      && s.fence < t.fence
      && s.attempt in Run(w, a + b).ledger.attempts && Final(Run(w, a + b).ledger.attempts[s.attempt].state)
      && !Passes(Run(w, a + b + c).ledger, u)
  {
    var x, y := Run(w, a), Run(w, a + b);
    RunKeeps(w, a);
    RunKeeps(w, a + b);
    RunConcat(w, a, b);
    RunKeeps(x, b);
    PassingIsStored(x.ledger, s);
    PassingIsStored(y.ledger, t);
    assert AttemptGrows(x.ledger.attempts[s.attempt], y.ledger.attempts[s.attempt]);
    if b == [] { assert a + b == a; }
    if s.attempt != t.attempt {
      FencesTellApart(y, s.attempt, t.attempt);
      RunConcat(w, a + b, c);
      FinishedForGood(y, c, u);
    }
  }

  /** Fences of a variant's grants strictly increase along every run, and only
      the last grant of a variant can still pass. */
  lemma FencesIncrease(w: World, steps: seq<Step>, i: nat, j: nat)
    requires Initial(w) && i < j < |Run(w, steps).grants|
    requires Run(w, steps).grants[i].variant == Run(w, steps).grants[j].variant
    ensures Run(w, steps).grants[i].fence < Run(w, steps).grants[j].fence
    ensures forall s: Subject | s.attempt == Run(w, steps).grants[i].id :: !Passes(Run(w, steps).ledger, s)
  {
    RunKeeps(w, steps);
    var r := Run(w, steps);
    assert Succeeds(r.ledger, r.grants[i], r.grants[j]);
    forall s: Subject | s.attempt == r.grants[i].id
      ensures !Passes(r.ledger, s)
    {
      FinishedFails(r.ledger, s);
    }
  }

  lemma FinishedFails(l: Ledger, s: Subject)
    requires s.attempt in l.attempts && Final(l.attempts[s.attempt].state)
    ensures !Passes(l, s)
  {
  }

  /** Once an attempt is finished, by release, by reclaim or by its own update,
      no subject naming it passes again, whatever happens next. */
  lemma FinishedForGood(w: World, steps: seq<Step>, s: Subject)
    requires WorldOk(w) && s.attempt in w.ledger.attempts && Final(w.ledger.attempts[s.attempt].state)
    ensures !Passes(Run(w, steps).ledger, s)
  {
    RunKeeps(w, steps);
    assert AttemptGrows(w.ledger.attempts[s.attempt], Run(w, steps).ledger.attempts[s.attempt]);
    FinishedFails(Run(w, steps).ledger, s);
  }

  /** Once a variant's lease row is gone or in other hands, by release, by
      reclaim or by a successor, no subject naming its former holder passes
      again, whatever happens next. */
  lemma LosesForGood(w: World, a: seq<Step>, b: seq<Step>, c: seq<Step>, v: Buf, u: Subject)
    requires Initial(w)
    requires v in Run(w, a).ledger.leases && u.attempt == Run(w, a).ledger.leases[v].attempt
    requires var m := Run(w, a + b).ledger; v in m.leases ==> m.leases[v].attempt != u.attempt
    ensures !Passes(Run(w, a + b + c).ledger, u)
  {
    var x, y := Run(w, a), Run(w, a + b);
    RunKeeps(w, a);
    RunConcat(w, a, b);
    RunKeeps(x, b);
    assert LeaseOk(x.ledger.now, x.ledger.fences, x.ledger.attempts, v, x.ledger.leases[v]);
    assert AttemptGrows(x.ledger.attempts[u.attempt], y.ledger.attempts[u.attempt]);
    assert AttemptOk(y.ledger.fences, y.ledger.leases, u.attempt, y.ledger.attempts[u.attempt]);
    RunConcat(w, a + b, c);
    FinishedForGood(y, c, u);
  }

  /** The heartbeat a lease's own holder sends. */
  function HeartbeatOf(lease: Lease): HeartbeatRequest {
    HeartbeatRequest(lease.variant, lease.attempt, lease.fence, lease.runner, lease.epoch, lease.nonce, lease.ttl)
  }

  /** The heartbeat of an unexpired lease's live holder, on the granted terms. */
  ghost predicate Beats(l: Ledger, q: HeartbeatRequest)
    requires q.variant in l.leases
  {
    var lease := l.leases[q.variant];
    q == HeartbeatOf(lease) && l.now < lease.expires && lease.attempt in l.attempts && Live(l.attempts[lease.attempt].state)
  }

  lemma HeartbeatExactly(l: Ledger, q: HeartbeatRequest)
    requires Inv(l)
    ensures Heartbeat(l, q).0 == None <==> TtlOk(q.ttl) && q.variant in l.leases && Beats(l, q)
  {
  }

  /** A heartbeat after any run leaves every subject's standing as it was, and
      an accepted one puts the holder's expiry its full term ahead. */
  lemma HeartbeatMovesNobody(w: World, steps: seq<Step>, q: HeartbeatRequest, s: Subject)
    requires Initial(w)
    ensures var l := Run(w, steps).ledger;
      var (failure, m) := Heartbeat(l, q);
      && (Passes(m, s) <==> Passes(l, s))
      && (failure == None ==> Beats(m, q) && m.leases[q.variant].expires == l.now + 1000 * q.ttl)
      && (failure != None ==> m == l)
  {
    RunKeeps(w, steps);
    var l := Run(w, steps).ledger;
    HeartbeatKeeps(l, q);
    HeartbeatExactly(l, q);
    PassesExactly(l, s);
    PassesExactly(Heartbeat(l, q).1, s);
  }

  /** The holder's release, from a state that may finish so. */
  ghost predicate Frees(l: Ledger, q: ReleaseRequest)
    requires q.variant in l.leases
  {
    && Final(q.final) && l.leases[q.variant].attempt == q.attempt
    && q.attempt in l.attempts && Transition(l.attempts[q.attempt].state, q.final)
  }

  /** The package is put back on the ready queue, if its state allows it. */
  ghost predicate Requeued(l: Ledger, m: Ledger, package: Buf) {
    if package in l.states && G.Transition(l.states[package], G.Ready)
    then m.states == l.states[package := G.Ready] && m.ready == l.ready + {package}
    else m.states == l.states && m.ready == l.ready
  }

  /** The holder of `v` ends in this state and its lease row is gone. */
  ghost predicate Ended(l: Ledger, m: Ledger, v: Buf, state: AttemptState)
    requires v in l.leases && l.leases[v].attempt in l.attempts
  {
    var id := l.leases[v].attempt;
    && m.leases == l.leases - {v} && m.attempts == l.attempts[id := l.attempts[id].(state := state)]
    && m.now == l.now && m.fences == l.fences && m.commands == l.commands && m.packageOf == l.packageOf
  }

  /** A release that frees a variant ends its holder, requeues the package when
      asked to, and reports an error only for a requeued package that no graph
      lists; any other changes nothing. Without a lease row it is accepted
      exactly as the repeat of a release. */
  lemma ReleaseExactly(l: Ledger, q: ReleaseRequest)
    requires Inv(l)
    ensures var (failure, m) := Release(l, q);
      && (q.variant in l.leases && Frees(l, q) ==>
            && Ended(l, m, q.variant, q.final)
            && (if q.requeue then Requeued(l, m, l.attempts[q.attempt].package) else m.states == l.states && m.ready == l.ready)
            && (failure == None <==> !q.requeue || l.attempts[q.attempt].package in l.states))
      && (q.variant in l.leases && !Frees(l, q) ==> failure != None && m == l)
      && (q.variant !in l.leases ==>
            && m == l
            && (failure == None <==> Final(q.final) && q.attempt in l.attempts && l.attempts[q.attempt].state == q.final))
  {
  }

  /** Expiry without a refusal removes exactly the expired leases it was
      handed. */
  lemma {:induction false} ExpiryIsExact(l: Ledger, due: seq<Buf>, v: Buf)
    requires ExpireAll(l, due).0 == None
    ensures var m := ExpireAll(l, due).1;
      && m.now == l.now && m.fences == l.fences
      && (v in m.leases <==> v in l.leases && (v !in due || l.now < l.leases[v].expires))
      && (v in m.leases ==> m.leases[v] == l.leases[v])
    decreases |due|
  {
    if due != [] {
      var front, u := due[..|due| - 1], due[|due| - 1];
      assert due == front + [u];
      ExpiryIsExact(l, front, v);
      ExpiryIsExact(l, front, u);
    }
  }

  ghost predicate CommandsKept(before: map<Buf, Command>, after: map<Buf, Command>) {
    forall k | k in before :: k in after && after[k] == before[k]
  }

  lemma {:induction false} ExpiryKeepsCommands(l: Ledger, due: seq<Buf>)
    ensures ExpireAll(l, due).1.commands == l.commands
    decreases |due|
  {
    if due != [] { ExpiryKeepsCommands(l, due[..|due| - 1]); }
  }

  lemma AcquireKeepsCommands(l: Ledger, q: LeaseRequest)
    ensures CommandsKept(l.commands, Acquire(l, q).1.commands)
  {
  }

  lemma StepKeepsCommands(l: Ledger, step: Step)
    ensures CommandsKept(l.commands, After(l, step).commands)
  {
    if step.DoAcquire? { AcquireKeepsCommands(l, step.lease); }
    if step.DoExpire? { ExpiryKeepsCommands(l, step.due); }
  }

  lemma {:induction false} RunKeepsCommands(w: World, steps: seq<Step>)
    ensures CommandsKept(w.ledger.commands, Run(w, steps).ledger.commands)
    decreases |steps|
  {
    if steps != [] {
      var mid := Run(w, steps[..|steps| - 1]);
      RunKeepsCommands(w, steps[..|steps| - 1]);
      StepKeepsCommands(mid.ledger, steps[|steps| - 1]);
    }
  }

  /** A granted command, repeated after any run, changes nothing and answers
      the first grant as long as its package is still listed; another request
      under its key is refused. */
  lemma GrantReplays(w: World, q: LeaseRequest, steps: seq<Step>)
    requires FreshGrant(w.ledger, q)
    ensures var (first, m) := (Acquire(w.ledger, q).0, Run(Do(w, DoAcquire(q)), steps).ledger);
      && Acquire(m, q).1 == m
      && Acquire(m, q).0 == (if first.value.attempt.package in m.states then first else Err(StaleAuthority))
      && forall p: LeaseRequest | p.key == q.key && p != q && TtlOk(p.ttl) :: Acquire(m, p) == (Err(Idempotency), m)
  {
    RunKeepsCommands(Do(w, DoAcquire(q)), steps);
    GrantIsStored(w.ledger, q);
  }

  lemma GrantIsStored(l: Ledger, q: LeaseRequest)
    requires FreshGrant(l, q)
    ensures var (first, m) := Acquire(l, q);
      TtlOk(q.ttl) && q.key in m.commands && m.commands[q.key] == Command(q, first.value) && first.value.attempt.context == 1
  {
  }

  // ---- a holder that finished itself --------------------------------------------------

  /** The lease row of `v` is held by an attempt that is already over. */
  ghost predicate Stuck(l: Ledger, v: Buf) {
    v in l.leases && l.leases[v].attempt in l.attempts && Final(l.attempts[l.leases[v].attempt].state)
  }

  /** Such an update is admitted whenever the holder may finish. */
  lemma UpdateSticks(l: Ledger, v: Buf, state: AttemptState)
    requires Inv(l) && v in l.leases && Final(state) && Transition(l.attempts[l.leases[v].attempt].state, state)
    ensures var a := l.attempts[l.leases[v].attempt].(state := state);
            PutAttempt(l, a).0 == None && Stuck(PutAttempt(l, a).1, v)
  {
  }

  ghost predicate SameRow(l: Ledger, m: Ledger, v: Buf)
    requires v in l.leases
  {
    v in m.leases && m.leases[v] == l.leases[v]
  }

  lemma StillStuck(l: Ledger, m: Ledger, v: Buf)
    requires Stuck(l, v) && Grows(l, m) && SameRow(l, m, v)
    ensures Stuck(m, v)
  {
  }

  /** Reclaim frees a variant exactly when its holder is not already over; the
      holder has then crashed and its package is requeued, and only a package
      that no graph lists is an error. */
  lemma ReclaimExactly(l: Ledger, v: Buf)
    requires Inv(l) && v in l.leases
    ensures v !in Reclaim(l, v).1.leases <==> !Stuck(l, v)
    ensures !Stuck(l, v) ==>
      Ended(l, Reclaim(l, v).1, v, Crashed) && Requeued(l, Reclaim(l, v).1, l.attempts[l.leases[v].attempt].package)
    ensures Reclaim(l, v).0 == None <==>
      !Stuck(l, v) && l.attempts[l.leases[v].attempt].package in l.states
    ensures Stuck(l, v) ==> Reclaim(l, v).1 == l
  {
  }

  lemma ReclaimOther(l: Ledger, u: Buf, v: Buf)
    requires u in l.leases && Stuck(l, v)
    ensures SameRow(l, Reclaim(l, u).1, v)
  {
  }

  lemma CommitOther(l: Ledger, q: LeaseRequest, v: Buf)
    requires GrantError(l, q) == None && v in l.leases
    ensures SameRow(l, Commit(l, q), v)
  {
  }

  lemma AcquireStuck(l: Ledger, q: LeaseRequest, v: Buf)
    requires Stuck(l, v)
    ensures SameRow(l, Acquire(l, q).1, v)
    ensures q.variant == v ==> !FreshGrant(l, q)
  {
    if TtlOk(q.ttl) && q.key !in l.commands {
      var (failed, m) := ReclaimExpired(l, q.variant);
      if q.variant in l.leases { ReclaimOther(l, q.variant, v); }
      if failed == None && GrantError(m, q) == None { CommitOther(m, q, v); }
    }
  }

  lemma {:induction false} ExpireStuck(l: Ledger, due: seq<Buf>, v: Buf)
    requires Inv(l) && Stuck(l, v)
    ensures SameRow(l, ExpireAll(l, due).1, v)
    decreases |due|
  {
    if due != [] {
      var m, u := ExpireAll(l, due[..|due| - 1]).1, due[|due| - 1];
      ExpireStuck(l, due[..|due| - 1], v);
      ExpireKeeps(l, due[..|due| - 1]);
      StillStuck(l, m, v);
      if u in m.leases { ReclaimOther(m, u, v); }
    }
  }

  lemma ReleaseStuck(l: Ledger, q: ReleaseRequest, v: Buf)
    requires Stuck(l, v)
    ensures SameRow(l, Release(l, q).1, v)
  {
  }

  lemma HeartbeatStuck(l: Ledger, q: HeartbeatRequest, v: Buf)
    requires Stuck(l, v)
    ensures SameRow(l, Heartbeat(l, q).1, v)
  {
  }

  lemma StepStuck(l: Ledger, step: Step, v: Buf)
    requires Inv(l) && Stuck(l, v)
    ensures SameRow(l, After(l, step), v)
  {
    match step
    case DoAcquire(q) => AcquireStuck(l, q, v);
    case DoHeartbeat(q) => HeartbeatStuck(l, q, v);
    case DoRelease(q) => ReleaseStuck(l, q, v);
    case DoPutAttempt(a) =>
    case DoExpire(due) => ExpireStuck(l, due, v);
    case Advance(millis) =>
    case MovePackages(_, _, _) =>
  }

  /** If the holder's attempt is finished by an update while the lease row is
      there, that row stays forever: no release, expiry or acquisition of any
      later run removes it, and the variant is never granted again. */
  lemma {:induction false} StuckForGood(w: World, steps: seq<Step>, v: Buf)
    requires WorldOk(w) && Stuck(w.ledger, v)
    ensures var r := Run(w, steps);
      && Stuck(r.ledger, v) && r.ledger.leases[v] == w.ledger.leases[v]
      && forall q: LeaseRequest | q.variant == v :: !FreshGrant(r.ledger, q)
    decreases |steps|
  {
    if steps != [] {
      var mid := Run(w, steps[..|steps| - 1]);
      StuckForGood(w, steps[..|steps| - 1], v);
      RunKeeps(w, steps[..|steps| - 1]);
      StepStuck(mid.ledger, steps[|steps| - 1], v);
    }
    RunKeeps(w, steps);
    StillStuck(w.ledger, Run(w, steps).ledger, v);
    forall q: LeaseRequest | q.variant == v
      ensures !FreshGrant(Run(w, steps).ledger, q)
    {
      AcquireStuck(Run(w, steps).ledger, q, v);
    }
  }

  ghost predicate MayFinish(l: Ledger, v: Buf, state: AttemptState) {
    && v in l.leases && l.leases[v].attempt in l.attempts
    && Final(state) && Transition(l.attempts[l.leases[v].attempt].state, state)
  }

  /** The update that finishes the holder of `v`. */
  function Finishing(l: Ledger, v: Buf, state: AttemptState): Step
    requires v in l.leases && l.leases[v].attempt in l.attempts
  {
    DoPutAttempt(l.attempts[l.leases[v].attempt].(state := state))
  }

  lemma BlockedFrom(x: World, c: seq<Step>, v: Buf, state: AttemptState, q: LeaseRequest)
    requires WorldOk(x) && MayFinish(x.ledger, v, state) && q.variant == v
    ensures var r := Run(Do(x, Finishing(x.ledger, v, state)), c).ledger;
      Stuck(r, v) && r.leases[v] == x.ledger.leases[v] && !FreshGrant(r, q)
  {
    UpdateSticks(x.ledger, v, state);
    DoKeeps(x, Finishing(x.ledger, v, state));
    StuckForGood(Do(x, Finishing(x.ledger, v, state)), c, v);
  }

  /** How it comes about: from any reachable state one update that finishes the
      holder along a legal edge blocks the variant for good. */
  lemma UpdateBlocksForGood(w: World, a: seq<Step>, c: seq<Step>, v: Buf, state: AttemptState, q: LeaseRequest)
    requires Initial(w) && MayFinish(Run(w, a).ledger, v, state) && q.variant == v
    ensures var l := Run(w, a).ledger;
      var r := Run(w, a + [Finishing(l, v, state)] + c).ledger;
      Stuck(r, v) && r.leases[v] == l.leases[v] && !FreshGrant(r, q)
  {
    var update := Finishing(Run(w, a).ledger, v, state);
    RunKeeps(w, a);
    RunOneMore(w, a, update);
    RunConcat(w, a + [update], c);
    BlockedFrom(Run(w, a), c, v, state, q);
  }

  /** Short of that, a dead writer does not block its variant: from any
      reachable state whose holder is not over, once its expiry has passed the
      next request is granted under the next fence. */
  lemma ExpiredGivesWay(w: World, a: seq<Step>, millis: nat, q: LeaseRequest)
    requires Initial(w) && TtlOk(q.ttl) && q.context == 1
    requires var l := Run(w, a).ledger;
      && q.key !in l.commands && q.attempt !in l.attempts
      && q.variant in l.leases && l.leases[q.variant].expires <= l.now + millis && !Stuck(l, q.variant)
      && l.leases[q.variant].attempt in l.attempts
      && q.variant in l.packageOf && l.attempts[l.leases[q.variant].attempt].package == l.packageOf[q.variant]
      && l.packageOf[q.variant] in l.states && G.Transition(l.states[l.packageOf[q.variant]], G.Ready)
    ensures var (l, m) := (Run(w, a).ledger, Run(w, a + [Advance(millis)]).ledger);
      FreshGrant(m, q) && Acquire(m, q).0.value.lease.fence == l.leases[q.variant].fence + 1
  {
    RunKeeps(w, a);
    RunOneMore(w, a, Advance(millis));
    RunKeeps(w, a + [Advance(millis)]);
    ReclaimedGivesWay(Run(w, a + [Advance(millis)]).ledger, q);
  }

  lemma ReclaimedGivesWay(l: Ledger, q: LeaseRequest)
    requires Inv(l) && TtlOk(q.ttl) && q.key !in l.commands && q.context == 1 && q.attempt !in l.attempts
    requires q.variant in l.leases && l.leases[q.variant].expires <= l.now && !Stuck(l, q.variant)
    requires q.variant in l.packageOf
    requires l.attempts[l.leases[q.variant].attempt].package == l.packageOf[q.variant]
    requires l.packageOf[q.variant] in l.states && G.Transition(l.states[l.packageOf[q.variant]], G.Ready)
    ensures FreshGrant(l, q) && Acquire(l, q).0.value.lease.fence == l.leases[q.variant].fence + 1
  {
  }
}
