/** What the lease ledger grants, to whom, and what a grant is worth: the
    requester's own subject passes and its own heartbeat is accepted. */
module LeaseGrants {
  import opened Bytes
  import opened WriterLease
  import opened WriterLeaseRuns
  import G = GraphDelta

  // ---- when a lease is granted --------------------------------------------------

  ghost predicate Waiting(l: Ledger, package: Buf) {
    package in l.states && l.states[package] == G.Ready && package in l.ready
  }

  /** A known variant whose package waits on the ready queue and that nobody
      holds; or one whose expired holder gives the package back. */
  ghost predicate Available(l: Ledger, v: Buf) {
    && v in l.packageOf && l.packageOf[v] in l.states
    && if v !in l.leases then Waiting(l, l.packageOf[v])
       else
         && l.leases[v].expires <= l.now && !Stuck(l, v) && l.leases[v].attempt in l.attempts
         && var held := l.attempts[l.leases[v].attempt].package;
         && held in l.states
         && (Waiting(l, l.packageOf[v])
             || (held == l.packageOf[v] && G.Transition(l.states[held], G.Ready)))
  }

  ghost predicate Grantable(l: Ledger, q: LeaseRequest) {
    && TtlOk(q.ttl) && q.context == 1 && q.key !in l.commands && q.attempt !in l.attempts
    && Available(l, q.variant)
  }

  /** A new command is granted exactly when its variant is available. */
  lemma GrantsExactly(l: Ledger, q: LeaseRequest)
    requires Inv(l)
    ensures FreshGrant(l, q) <==> Grantable(l, q)
  {
    if q.variant in l.leases {
      assert LeaseOk(l.now, l.fences, l.attempts, q.variant, l.leases[q.variant]);
      ReclaimExactly(l, q.variant);
    }
  }

  // ---- what a grant is worth ------------------------------------------------------

  function SubjectFor(q: LeaseRequest, package: Buf, fence: nat): Subject {
    Subject(q.variant, q.attempt, package, fence, q.runner, q.epoch, q.workspace, q.nonce, q.scope, q.context)
  }

  function HeartbeatFor(q: LeaseRequest, fence: nat): HeartbeatRequest {
    HeartbeatRequest(q.variant, q.attempt, fence, q.runner, q.epoch, q.nonce, q.ttl)
  }

  /** The ledger right after a grant of `q` under this fence. */
  ghost predicate Granted(l: Ledger, m: Ledger, q: LeaseRequest, g: Grant) {
    && q.variant in l.packageOf
    && var fence, package := NextFence(l, q.variant), l.packageOf[q.variant];
    && g.lease.fence == fence && SubjectOf(g.attempt) == SubjectFor(q, package, fence) && g.attempt.state.Starting?
    && HeartbeatOf(g.lease) == HeartbeatFor(q, fence)
    && g.lease.heartbeat == l.now && g.lease.expires == l.now + 1000 * q.ttl
    && m.now == l.now && m.fences == l.fences[q.variant := fence] && m.packageOf == l.packageOf
    && q.attempt in m.attempts && m.attempts[q.attempt] == g.attempt
    && q.variant in m.leases && m.leases[q.variant] == g.lease
    && m.commands == l.commands[q.key := Command(q, g)]
    && package in m.states && m.states[package] == G.Leased && package !in m.ready
  }

  lemma CommitGrants(l: Ledger, m: Ledger, q: LeaseRequest)
    requires GrantError(m, q) == None && TtlOk(q.ttl)
    requires m.now == l.now && m.fences == l.fences && m.packageOf == l.packageOf && m.commands == l.commands
    ensures Granted(l, Commit(m, q), q, GrantFor(m, q, m.packageOf[q.variant]))
  {
  }

  lemma ReclaimedSame(l: Ledger, v: Buf)
    ensures var m := ReclaimExpired(l, v).1;
      m.now == l.now && m.fences == l.fences && m.packageOf == l.packageOf && m.commands == l.commands
  {
  }

  lemma GrantIs(l: Ledger, q: LeaseRequest)
    requires Inv(l) && FreshGrant(l, q)
    ensures Granted(l, Acquire(l, q).1, q, Acquire(l, q).0.value) && TtlOk(q.ttl)
  {
    ReclaimedSame(l, q.variant);
    CommitGrants(l, ReclaimExpired(l, q.variant).1, q);
  }

  /** In `m` the request's own subject passes and its own heartbeat is accepted
      if the granted term is not over after this time, and not otherwise. */
  ghost predicate Serves(l: Ledger, m: Ledger, q: LeaseRequest, millis: nat) {
    && q.variant in l.packageOf
    && var fence := NextFence(l, q.variant);
    && (Passes(m, SubjectFor(q, l.packageOf[q.variant], fence)) <==> millis < 1000 * q.ttl)
    && (Heartbeat(m, HeartbeatFor(q, fence)).0 == None <==> millis < 1000 * q.ttl)
  }

  lemma GrantLasts(l: Ledger, m: Ledger, q: LeaseRequest, g: Grant, millis: nat)
    requires Granted(l, m, q, g) && TtlOk(q.ttl)
    ensures Serves(l, m.(now := m.now + millis), q, millis)
  {
  }

  /** After any run a fresh grant serves its own request, under the next fence,
      from the grant until the granted term is over and no longer. */
  lemma GrantServes(w: World, a: seq<Step>, q: LeaseRequest, millis: nat)
    requires Initial(w) && FreshGrant(Run(w, a).ledger, q)
    ensures Serves(Run(w, a).ledger, Run(w, a + [DoAcquire(q)] + [Advance(millis)]).ledger, q, millis)
  {
    RunKeeps(w, a);
    RunTwoMore(w, a, DoAcquire(q), Advance(millis));
    ServesNext(Run(w, a), q, millis);
  }

  lemma ServesNext(x: World, q: LeaseRequest, millis: nat)
    requires Inv(x.ledger) && FreshGrant(x.ledger, q)
    ensures Serves(x.ledger, Do(Do(x, DoAcquire(q)), Advance(millis)).ledger, q, millis)
  {
    GrantIs(x.ledger, q);
    GrantLasts(x.ledger, Acquire(x.ledger, q).1, q, Acquire(x.ledger, q).0.value, millis);
  }

  lemma RunTwoMore(w: World, a: seq<Step>, x: Step, y: Step)
    ensures Run(w, a + [x] + [y]) == Do(Do(Run(w, a), x), y)
  {
  }

  /** The lease row of `v` and its holder are the same in both ledgers. */
  ghost predicate SameHolder(l: Ledger, m: Ledger, v: Buf) {
    && (v in l.leases <==> v in m.leases)
    && (v in l.leases ==>
          var id := l.leases[v].attempt;
          m.leases[v] == l.leases[v] && id in l.attempts && id in m.attempts && m.attempts[id] == l.attempts[id])
  }

  lemma ReclaimKeepsPackages(l: Ledger, u: Buf)
    requires u in l.leases
    ensures Reclaim(l, u).1.states.Keys == l.states.Keys && Reclaim(l, u).1.now == l.now
  {
  }

  lemma ReclaimSparesOthers(l: Ledger, u: Buf, v: Buf)
    requires Inv(l) && u in l.leases && u != v
    ensures SameHolder(l, Reclaim(l, u).1, v)
  {
    assert LeaseOk(l.now, l.fences, l.attempts, u, l.leases[u]);
    if v in l.leases { assert LeaseOk(l.now, l.fences, l.attempts, v, l.leases[v]); }
  }

  lemma CommitSparesOthers(l: Ledger, q: LeaseRequest, v: Buf)
    requires Inv(l) && GrantError(l, q) == None && q.variant != v
    ensures SameHolder(l, Commit(l, q), v)
  {
  }

  lemma ReclaimExpiredSpares(l: Ledger, u: Buf, v: Buf)
    requires Inv(l) && u != v
    ensures SameHolder(l, ReclaimExpired(l, u).1, v) && ReclaimExpired(l, u).1.now == l.now
  {
    if v in l.leases { assert LeaseOk(l.now, l.fences, l.attempts, v, l.leases[v]); }
    if u in l.leases {
      ReclaimKeepsPackages(l, u);
      ReclaimSparesOthers(l, u, v);
    }
  }

  lemma AcquireSpares(l: Ledger, q: LeaseRequest, v: Buf)
    requires Inv(l) && v != q.variant
    ensures SameHolder(l, Acquire(l, q).1, v) && Acquire(l, q).1.now == l.now
  {
    if v in l.leases { assert LeaseOk(l.now, l.fences, l.attempts, v, l.leases[v]); }
    if TtlOk(q.ttl) && q.key !in l.commands {
      var (failed, m) := ReclaimExpired(l, q.variant);
      ReclaimExpiredSpares(l, q.variant, v);
      if failed == None && GrantError(m, q) == None {
        ReclaimExpiredKeeps(l, q.variant);
        CommitSparesOthers(m, q, v);
      }
    }
  }

  /** An acquisition leaves every other variant's lease and holder, and so the
      standing of their subjects, alone. */
  lemma AcquireSparesOthers(l: Ledger, q: LeaseRequest, s: Subject)
    requires Inv(l) && s.variant != q.variant
    ensures Passes(Acquire(l, q).1, s) <==> Passes(l, s)
  {
    AcquireSpares(l, q, s.variant);
  }

  // ---- repeated releases ------------------------------------------------------------

  /** No lease row names this attempt. */
  ghost predicate Free(l: Ledger, id: Buf) {
    id in l.attempts && forall v | v in l.leases :: l.leases[v].attempt != id
  }

  lemma {:induction false} ExpiryKeepsFree(l: Ledger, due: seq<Buf>, id: Buf)
    requires Free(l, id)
    ensures Free(ExpireAll(l, due).1, id)
    decreases |due|
  {
    if due != [] { ExpiryKeepsFree(l, due[..|due| - 1], id); }
  }

  lemma AcquireKeepsFree(l: Ledger, q: LeaseRequest, id: Buf)
    requires Free(l, id)
    ensures Free(Acquire(l, q).1, id)
  {
  }

  lemma StepKeepsFree(l: Ledger, step: Step, id: Buf)
    requires Free(l, id)
    ensures Free(After(l, step), id)
  {
    if step.DoAcquire? { AcquireKeepsFree(l, step.lease, id); }
    if step.DoExpire? { ExpiryKeepsFree(l, step.due, id); }
  }

  lemma {:induction false} RunKeepsFree(w: World, steps: seq<Step>, id: Buf)
    requires Free(w.ledger, id)
    ensures Free(Run(w, steps).ledger, id)
    decreases |steps|
  {
    if steps != [] {
      RunKeepsFree(w, steps[..|steps| - 1], id);
      StepKeepsFree(Run(w, steps[..|steps| - 1]).ledger, steps[|steps| - 1], id);
    }
  }

  lemma ReleasedIsFree(l: Ledger, q: ReleaseRequest)
    requires Inv(l) && q.variant in l.leases && Frees(l, q)
    ensures var m := Release(l, q).1; Free(m, q.attempt) && m.attempts[q.attempt].state == q.final
  {
  }

  /** A release repeated after any run changes nothing; it is confirmed while
      the variant is free and stale once somebody else holds it. */
  lemma ReleaseRepeats(w: World, a: seq<Step>, q: ReleaseRequest, b: seq<Step>)
    requires Initial(w) && q.variant in Run(w, a).ledger.leases && Frees(Run(w, a).ledger, q)
    ensures var m := Run(w, a + [DoRelease(q)] + b).ledger;
      Release(m, q) == (if q.variant in m.leases then Some(StaleAuthority) else None, m)
  {
    RunKeeps(w, a);
    RunOneMore(w, a, DoRelease(q));
    RunConcat(w, a + [DoRelease(q)], b);
    ReleasedIsFree(Run(w, a).ledger, q);
    var x := Run(w, a + [DoRelease(q)]);
    RunKeeps(w, a + [DoRelease(q)]);
    RunKeepsFree(x, b, q.attempt);
    RunKeeps(x, b);
    assert AttemptGrows(x.ledger.attempts[q.attempt], Run(x, b).ledger.attempts[q.attempt]);
  }

  // ---- updates ------------------------------------------------------------------------

  /** An update is stored exactly when it is about a known attempt, keeps its
      identity and moves along a legal edge or nowhere; then it decides the
      standing of the subjects of its own lease row and of no others. */
  lemma UpdateIsStored(l: Ledger, a: Attempt, s: Subject)
    requires Inv(l)
    ensures var (failure, m) := PutAttempt(l, a);
      && (failure == None <==>
            && a.id in l.attempts && SameIdentity(l.attempts[a.id], a)
            && (l.attempts[a.id].state == a.state || Transition(l.attempts[a.id].state, a.state)))
      && m == (if failure == None then l.(attempts := l.attempts[a.id := a]) else l)
      && (failure == None ==>
            (Passes(m, s) <==>
              if s.variant in l.leases && l.leases[s.variant].attempt == a.id
              then l.now < l.leases[s.variant].expires && Live(a.state) && s == SubjectOf(a) else Passes(l, s)))
  {
  }

  // ---- expiry ---------------------------------------------------------------------------

  /** Reclaiming this expired lease is not refused. */
  ghost predicate Reclaimable(l: Ledger, v: Buf) {
    v in l.leases && l.leases[v].expires <= l.now ==>
      && !Stuck(l, v) && l.leases[v].attempt in l.attempts && l.attempts[l.leases[v].attempt].package in l.states
  }

  lemma {:induction false} ExpirySpares(l: Ledger, due: seq<Buf>, v: Buf)
    requires Inv(l) && ExpireAll(l, due).0 == None
    ensures var m := ExpireAll(l, due).1;
      m.states.Keys == l.states.Keys && m.now == l.now && (v in m.leases ==> SameHolder(l, m, v))
    decreases |due|
  {
    if due == [] {
      if v in l.leases { assert LeaseOk(l.now, l.fences, l.attempts, v, l.leases[v]); }
    } else {
      var front, u := due[..|due| - 1], due[|due| - 1];
      ExpirySpares(l, front, v);
      ExpireKeeps(l, front);
      var m := ExpireAll(l, front).1;
      if u in m.leases {
        ReclaimKeepsPackages(m, u);
        if u != v { ReclaimSparesOthers(m, u, v); } else { ReclaimExactly(m, u); }
      }
    }
  }

  /** Expiry is refused exactly when one of the expired leases it was handed
      cannot be reclaimed: its holder finished itself or its package is unlisted. */
  lemma {:induction false} ExpirySucceedsIff(l: Ledger, due: seq<Buf>)
    requires Inv(l)
    ensures ExpireAll(l, due).0 == None <==> forall v | v in due :: Reclaimable(l, v)
    decreases |due|
  {
    if due != [] {
      var front, u := due[..|due| - 1], due[|due| - 1];
      assert due == front + [u];
      ExpirySucceedsIff(l, front);
      if ExpireAll(l, front).0 == None { LastExpiry(l, front, u); }
    }
  }

  lemma LastExpiry(l: Ledger, front: seq<Buf>, u: Buf)
    requires Inv(l) && ExpireAll(l, front).0 == None && forall v | v in front :: Reclaimable(l, v)
    ensures ExpireAll(l, front + [u]).0 == None <==> Reclaimable(l, u)
  {
    var m := ExpireAll(l, front).1;
    assert (front + [u])[..|front|] == front;
    ExpirySpares(l, front, u);
    ExpiryIsExact(l, front, u);
    ExpireKeeps(l, front);
    if u in m.leases { ReclaimExactly(m, u); }
  }
}
