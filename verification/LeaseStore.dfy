/** The lease ledger in place: each method is one transaction of the memory
    ledger, proved against its function, and keeps the ledger's invariant. */
module LeaseStore {
  import opened Bytes
  import opened WriterLease
  import opened WriterLeaseRuns
  import opened LeaseGrants
  import G = GraphDelta

  class LeaseLedger {
    var now: nat
    var fences: map<Buf, nat>
    var attempts: map<Buf, Attempt>
    var leases: map<Buf, Lease>
    var commands: map<Buf, Command>
    var packageOf: map<Buf, Buf>
    var states: map<Buf, G.PackageState>
    var ready: set<Buf>

    function State(): Ledger
      reads this
    {
      Ledger(now, fences, attempts, leases, commands, packageOf, states, ready)
    }

    constructor (packageOf: map<Buf, Buf>, states: map<Buf, G.PackageState>, ready: set<Buf>)
      ensures State() == Ledger(0, map[], map[], map[], map[], packageOf, states, ready)
    {
      now, fences, attempts, leases, commands := 0, map[], map[], map[], map[];
      this.packageOf, this.states, this.ready := packageOf, states, ready;
    }

    /** The ledger's own clock, moved forward by hand. */
    method AdvanceTime(millis: nat)
      modifies this
      ensures State() == old(State()).(now := old(now) + millis)
      ensures Inv(old(State())) ==> Inv(State())
    {
      ghost var l := State();
      if Inv(l) { AfterKeeps(l, Advance(millis)); }
      now := now + millis;
    }

    method RequeuePackage(package: Buf) returns (failure: Option<Error>)
      modifies this
      ensures (failure, State()) == Requeue(old(State()), package)
    {
      if package !in states { return Some(Missing); }
      if G.Transition(states[package], G.Ready) {
        states := states[package := G.Ready];
        ready := ready + {package};
      }
      return None;
    }

    method ReclaimLease(v: Buf) returns (failure: Option<Error>)
      requires v in leases
      modifies this
      ensures (failure, State()) == Reclaim(old(State()), v)
    {
      var id := leases[v].attempt;
      if id !in attempts { return Some(Corrupt); }
      var a := attempts[id];
      if !Live(a.state) { return Some(Corrupt); }
      attempts := attempts[id := a.(state := Crashed)];
      leases := leases - {v};
      failure := RequeuePackage(a.package);
    }

    method CommitGrant(q: LeaseRequest) returns (grant: Grant)
      requires GrantError(State(), q) == None
      modifies this
      ensures grant == GrantFor(old(State()), q, old(packageOf)[q.variant]) && State() == Commit(old(State()), q)
    {
      var package := packageOf[q.variant];
      grant := GrantFor(State(), q, package);
      fences := fences[q.variant := grant.lease.fence];
      attempts := attempts[q.attempt := grant.attempt];
      leases := leases[q.variant := grant.lease];
      ready := ready - {package};
      states := states[package := G.Leased];
      commands := commands[q.key := Command(q, grant)];
    }

    method AcquireLease(q: LeaseRequest) returns (r: Result<Grant>)
      modifies this
      ensures (r, State()) == Acquire(old(State()), q)
      ensures Inv(old(State())) ==> Inv(State())
      ensures Inv(old(State())) && q.key !in old(commands) ==>
        && (r.Ok? <==> Grantable(old(State()), q))
        && (r.Ok? ==> Granted(old(State()), State(), q, r.value))
    {
      ghost var l := State();
      if Inv(l) {
        AcquireKeeps(l, q);
        GrantsExactly(l, q);
        if FreshGrant(l, q) { GrantIs(l, q); }
      }
      if !TtlOk(q.ttl) { return Err(InvalidTtl); }
      if q.key in commands {
        return ReplayGrant(State(), q);
      }
      if q.variant in leases && leases[q.variant].expires <= now {
        var failure := ReclaimLease(q.variant);
        if failure.Some? { return Err(failure.value); }
      }
      var refused := GrantError(State(), q);
      if refused.Some? { return Err(refused.value); }
      var grant := CommitGrant(q);
      return Ok(grant);
    }

    method HeartbeatLease(q: HeartbeatRequest) returns (failure: Option<Error>)
      modifies this
      ensures (failure, State()) == Heartbeat(old(State()), q)
      ensures Inv(old(State())) ==> Inv(State())
      ensures Inv(old(State())) ==>
        (failure == None <==> TtlOk(q.ttl) && q.variant in old(leases) && Beats(old(State()), q))
    {
      ghost var l := State();
      if Inv(l) {
        HeartbeatKeeps(l, q);
        HeartbeatExactly(l, q);
      }
      if !TtlOk(q.ttl) { return Some(InvalidTtl); }
      if q.variant in leases && leases[q.variant].attempt !in attempts { return Some(Corrupt); }
      if !HeartbeatMatches(State(), q) { return Some(StaleAuthority); }
      leases := leases[q.variant := leases[q.variant].(heartbeat := now, expires := now + 1000 * q.ttl)];
      return None;
    }

    method ExpireLeases(due: seq<Buf>) returns (failure: Option<Error>)
      modifies this
      ensures (failure, State()) == ExpireAll(old(State()), due)
      ensures Inv(old(State())) ==> Inv(State())
    {
      ghost var l := State();
      if Inv(l) { ExpireKeeps(l, due); }
      for i := 0 to |due|
        invariant (None, State()) == ExpireAll(l, due[..i])
      {
        assert due[..i + 1][..i] == due[..i];
        var v := due[i];
        if v in leases && leases[v].expires <= now {
          failure := ReclaimLease(v);
          if failure.Some? {
            ExpireStops(l, due, i + 1);
            return;
          }
        }
      }
      assert due[..|due|] == due;
      return None;
    }

    method ReleaseLease(q: ReleaseRequest) returns (failure: Option<Error>)
      modifies this
      ensures (failure, State()) == Release(old(State()), q)
      ensures Inv(old(State())) ==> Inv(State())
      ensures Inv(old(State())) && q.variant in old(leases) ==> (q.variant !in leases <==> Frees(old(State()), q))
    {
      ghost var l := State();
      if Inv(l) {
        ReleaseKeeps(l, q);
        ReleaseExactly(l, q);
      }
      if !Final(q.final) { return Some(InvalidTransition); }
      if q.variant !in leases {
        return if q.attempt in attempts && attempts[q.attempt].state == q.final then None else Some(StaleAuthority);
      }
      if leases[q.variant].attempt != q.attempt { return Some(StaleAuthority); }
      if q.attempt !in attempts { return Some(Corrupt); }
      var a := attempts[q.attempt];
      if !Transition(a.state, q.final) { return Some(InvalidTransition); }
      attempts := attempts[q.attempt := a.(state := q.final)];
      leases := leases - {q.variant};
      if q.requeue { failure := RequeuePackage(a.package); } else { failure := None; }
    }

    method StoreAttempt(a: Attempt) returns (failure: Option<Error>)
      modifies this
      ensures (failure, State()) == PutAttempt(old(State()), a)
      ensures Inv(old(State())) ==> Inv(State())
    {
      ghost var l := State();
      if Inv(l) { PutAttemptKeeps(l, a); }
      if a.id !in attempts { return Some(Conflict); }
      if !SameIdentity(attempts[a.id], a) { return Some(Conflict); }
      if attempts[a.id].state != a.state && !Transition(attempts[a.id].state, a.state) { return Some(InvalidTransition); }
      attempts := attempts[a.id := a];
      return None;
    }
  }
}
