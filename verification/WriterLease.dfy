/** The writer lease of a variant: acquisition with expiry reclaim, heartbeat,
    release, attempt updates, and the snapshot check of a subject. */
module WriterLease {
  import opened Bytes
  import G = GraphDelta

  const MAX_TTL: int := 15

  datatype AttemptState =
    | Created | Starting | Running | Paused | Checkpointing | Preparing
    | Succeeded | Superseded | Failed | Crashed | Cancelled | Quarantined

  /** States that keep a lease: heartbeat, online check and expiry agree. */
  predicate Live(s: AttemptState) {
    s.Starting? || s.Running? || s.Paused? || s.Checkpointing? || s.Preparing?
  }

  predicate Final(s: AttemptState) {
    s.Succeeded? || s.Superseded? || s.Failed? || s.Crashed? || s.Cancelled? || s.Quarantined?
  }

  predicate Transition(from: AttemptState, to: AttemptState) {
    match to
    case Created => false
    case Starting => from.Created?
    case Running => from.Starting? || from.Paused? || from.Checkpointing?
    case Paused => from.Running?
    case Checkpointing => from.Running?
    case Preparing => from.Running? || from.Checkpointing?
    case Succeeded => from.Preparing?
    case _ => !Final(from)
  }

  datatype Attempt = Attempt(id: Buf, variant: Buf, package: Buf, fence: nat, runner: Buf, epoch: nat,
                             workspace: Buf, nonce: Buf, scope: nat, context: nat, state: AttemptState)

  datatype Lease = Lease(variant: Buf, attempt: Buf, fence: nat, runner: Buf, epoch: nat, nonce: Buf,
                         heartbeat: nat, expires: nat, ttl: int)

  datatype Grant = Grant(attempt: Attempt, lease: Lease)

  datatype LeaseRequest = LeaseRequest(key: Buf, variant: Buf, attempt: Buf, runner: Buf, epoch: nat,
                                       workspace: Buf, nonce: Buf, scope: nat, context: nat, ttl: int)

  datatype HeartbeatRequest = HeartbeatRequest(variant: Buf, attempt: Buf, fence: nat, runner: Buf, epoch: nat,
                                               nonce: Buf, ttl: int)

  datatype ReleaseRequest = ReleaseRequest(variant: Buf, attempt: Buf, final: AttemptState, requeue: bool)

  datatype Command = Command(request: LeaseRequest, grant: Grant)

  datatype Subject = Subject(variant: Buf, attempt: Buf, package: Buf, fence: nat, runner: Buf, epoch: nat,
                             workspace: Buf, nonce: Buf, scope: nat, context: nat)

  datatype Error = InvalidTtl | Idempotency | Missing | StaleAuthority | Conflict | Fence | InvalidTransition | Corrupt
  datatype Result<+T> = Ok(value: T) | Err(error: Error)

  /** `packageOf` is the graph's variant-to-package relation; `states` and
      `ready` are package states and ready rows. Times are milliseconds. */
  datatype Ledger = Ledger(now: nat, fences: map<Buf, nat>, attempts: map<Buf, Attempt>, leases: map<Buf, Lease>,
                           commands: map<Buf, Command>, packageOf: map<Buf, Buf>,
                           states: map<Buf, G.PackageState>, ready: set<Buf>)

  // ---- the snapshot check -----------------------------------------------------

  function SubjectOf(a: Attempt): Subject {
    Subject(a.variant, a.id, a.package, a.fence, a.runner, a.epoch, a.workspace, a.nonce, a.scope, a.context)
  }

  predicate LeaseNames(lease: Lease, s: Subject) {
    && lease.variant == s.variant && lease.attempt == s.attempt && lease.fence == s.fence
    && lease.runner == s.runner && lease.epoch == s.epoch && lease.nonce == s.nonce
  }

  function Snapshot(lease: Lease, a: Attempt, s: Subject, now: nat): Option<Error> {
    if lease.heartbeat > now || lease.heartbeat >= lease.expires then Some(Corrupt)
    else if lease.expires <= now || !Live(a.state) || !LeaseNames(lease, s) || SubjectOf(a) != s then Some(StaleAuthority)
    else None
  }

  function CheckActiveLease(l: Ledger, s: Subject): Option<Error> {
    if s.variant !in l.leases then Some(StaleAuthority)
    else if l.leases[s.variant].attempt !in l.attempts then Some(Corrupt)
    else Snapshot(l.leases[s.variant], l.attempts[l.leases[s.variant].attempt], s, l.now)
  }

  predicate Passes(l: Ledger, s: Subject) { CheckActiveLease(l, s) == None }

  // ---- the operations ---------------------------------------------------------

  predicate TtlOk(ttl: int) { 1 <= ttl <= MAX_TTL }

  /** Back to the ready queue, when the package's state allows it; a package
      that no graph lists is an error. */
  function Requeue(l: Ledger, package: Buf): (Option<Error>, Ledger) {
    if package !in l.states then (Some(Missing), l)
    else if G.Transition(l.states[package], G.Ready)
    then (None, l.(states := l.states[package := G.Ready], ready := l.ready + {package}))
    else (None, l)
  }

  /** Ends the holder of `v` in `state` and removes the lease row. */
  function Close(l: Ledger, v: Buf, id: Buf, state: AttemptState): Ledger
    requires id in l.attempts
  {
    l.(attempts := l.attempts[id := l.attempts[id].(state := state)], leases := l.leases - {v})
  }

  /** A failed requeue comes after the lease row is gone. */
  function Reclaim(l: Ledger, v: Buf): (Option<Error>, Ledger)
    requires v in l.leases
  {
    var id := l.leases[v].attempt;
    if id !in l.attempts then (Some(Corrupt), l)
    else if !Live(l.attempts[id].state) then (Some(Corrupt), l)
    else Requeue(Close(l, v, id, Crashed), l.attempts[id].package)
  }

  function ReclaimExpired(l: Ledger, v: Buf): (Option<Error>, Ledger) {
    if v !in l.leases || l.now < l.leases[v].expires then (None, l) else Reclaim(l, v)
  }

  function NextFence(l: Ledger, v: Buf): nat { (if v in l.fences then l.fences[v] else 0) + 1 }

  function GrantFor(l: Ledger, q: LeaseRequest, package: Buf): Grant {
    var fence, window := NextFence(l, q.variant), if q.ttl > 0 then 1000 * q.ttl else 0;
    Grant(Attempt(q.attempt, q.variant, package, fence, q.runner, q.epoch, q.workspace, q.nonce, q.scope, q.context,
                  Starting),
          Lease(q.variant, q.attempt, fence, q.runner, q.epoch, q.nonce, l.now, l.now + window, q.ttl))
  }

  function GrantError(l: Ledger, q: LeaseRequest): Option<Error> {
    if q.variant !in l.packageOf then Some(Missing)
    else
      var package := l.packageOf[q.variant];
      if package !in l.states then Some(Missing)
      else if q.context != 1 then Some(StaleAuthority)
      else if l.states[package] != G.Ready then Some(Conflict)
      else if package !in l.ready then Some(Conflict)
      else if q.variant in l.leases then Some(Fence)
      else if q.attempt in l.attempts then Some(Conflict)
      else None
  }

  function Commit(l: Ledger, q: LeaseRequest): Ledger
    requires GrantError(l, q) == None
  {
    var package := l.packageOf[q.variant];
    var grant := GrantFor(l, q, package);
    l.(fences := l.fences[q.variant := grant.lease.fence],
       attempts := l.attempts[q.attempt := grant.attempt],
       leases := l.leases[q.variant := grant.lease],
       ready := l.ready - {package},
       states := l.states[package := G.Leased],
       commands := l.commands[q.key := Command(q, grant)])
  }

  /** A replayed command answers its stored grant, whose package and context
      revision must still stand. */
  function ReplayGrant(l: Ledger, q: LeaseRequest): Result<Grant>
    requires q.key in l.commands
  {
    var c := l.commands[q.key];
    if c.request != q then Err(Idempotency)
    else if c.grant.attempt.package !in l.states || c.grant.attempt.context != 1 then Err(StaleAuthority)
    else Ok(c.grant)
  }

  function Acquire(l: Ledger, q: LeaseRequest): (Result<Grant>, Ledger) {
    if !TtlOk(q.ttl) then (Err(InvalidTtl), l)
    else if q.key in l.commands then (ReplayGrant(l, q), l)
    else
      var (failed, m) := ReclaimExpired(l, q.variant);
      if failed.Some? then (Err(failed.value), m)
      else
        var refused := GrantError(m, q);
        if refused.Some? then (Err(refused.value), m)
        else (Ok(GrantFor(m, q, m.packageOf[q.variant])), Commit(m, q))
  }

  predicate HeartbeatMatches(l: Ledger, q: HeartbeatRequest) {
    && q.variant in l.leases && l.leases[q.variant].attempt in l.attempts
    && Live(l.attempts[l.leases[q.variant].attempt].state)
    && var lease := l.leases[q.variant];
    && lease.attempt == q.attempt && lease.fence == q.fence && lease.runner == q.runner && lease.epoch == q.epoch
    && lease.nonce == q.nonce && lease.ttl == q.ttl && lease.heartbeat <= l.now < lease.expires
  }

  function Heartbeat(l: Ledger, q: HeartbeatRequest): (Option<Error>, Ledger) {
    if !TtlOk(q.ttl) then (Some(InvalidTtl), l)
    else if q.variant in l.leases && l.leases[q.variant].attempt !in l.attempts then (Some(Corrupt), l)
    else if !HeartbeatMatches(l, q) then (Some(StaleAuthority), l)
    else (None, l.(leases := l.leases[q.variant :=
                   l.leases[q.variant].(heartbeat := l.now, expires := l.now + 1000 * q.ttl)]))
  }

  function Release(l: Ledger, q: ReleaseRequest): (Option<Error>, Ledger) {
    if !Final(q.final) then (Some(InvalidTransition), l)
    else if q.variant in l.leases then
      if l.leases[q.variant].attempt != q.attempt then (Some(StaleAuthority), l)
      else if q.attempt !in l.attempts then (Some(Corrupt), l)
      else
        var a := l.attempts[q.attempt];
        if !Transition(a.state, q.final) then (Some(InvalidTransition), l)
        else
          var m := Close(l, q.variant, q.attempt, q.final);
          if q.requeue then Requeue(m, a.package) else (None, m)
    else if q.attempt in l.attempts && l.attempts[q.attempt].state == q.final then (None, l)
    else (Some(StaleAuthority), l)
  }

  predicate SameIdentity(a: Attempt, b: Attempt) {
    && a.variant == b.variant && a.package == b.package && a.fence == b.fence && a.runner == b.runner
    && a.epoch == b.epoch && a.workspace == b.workspace && a.nonce == b.nonce
  }

  function PutAttempt(l: Ledger, a: Attempt): (Option<Error>, Ledger) {
    if a.id !in l.attempts then (Some(Conflict), l)
    else if !SameIdentity(l.attempts[a.id], a) then (Some(Conflict), l)
    else if l.attempts[a.id].state != a.state && !Transition(l.attempts[a.id].state, a.state) then (Some(InvalidTransition), l)
    else (None, l.(attempts := l.attempts[a.id := a]))
  }

  /** Reclaims the due leases in this order, stopping at the first refusal. */
  function ExpireAll(l: Ledger, due: seq<Buf>): (Option<Error>, Ledger)
    decreases |due|
  {
    if due == [] then (None, l)
    else
      var (e, m) := ExpireAll(l, due[..|due| - 1]);
      var v := due[|due| - 1];
      if e.Some? || v !in m.leases || m.now < m.leases[v].expires then (e, m)
      else Reclaim(m, v)
  }

  lemma {:induction false} ExpireStops(l: Ledger, due: seq<Buf>, k: nat)
    requires k <= |due| && ExpireAll(l, due[..k]).0.Some?
    ensures ExpireAll(l, due) == ExpireAll(l, due[..k])
    decreases |due|
  {
    if k < |due| {
      assert due[..|due| - 1][..k] == due[..k];
      ExpireStops(l, due[..|due| - 1], k);
    } else {
      assert due[..k] == due;
    }
  }
}
