/** What recovery does when it is asked: who is admitted, which requests are
    applied and what they leave, what an authority change unseats. */
module RecoveryProgress {
  import opened Bytes
  import E = EffectStates
  import opened EffectRecovery
  import opened RecoveryInvariants
  import opened RecoveryTheorems

  // ---- who is admitted ----------------------------------------------------------

  /** The last row owns the intent under the current authority. */
  ghost predicate Seated(db: Db) {
    db.claims != [] && Active(Last(db.claims).disposition) && ClaimIsCurrent(Last(db.claims), db.cur)
  }

  /** The owner's row, in step with its intent. */
  ghost predicate Owns(db: Db, a: Authority) {
    && Seated(db) && Last(db.claims).authority == a && db.intent.Some?
    && Synced(Last(db.claims), db.intent.value) && ClaimValid(Last(db.claims), db.intent.value)
  }

  /** The phase a new claim takes up: that of the row before it, and without one
      what the retries already spent allow. */
  function Inherited(db: Db): Option<Disposition>
    requires db.intent.Some?
  {
    if db.claims != [] then Some(Phase(Last(db.claims)))
    else if db.intent.value.retries == 0 then Some(Claimed)
    else if db.intent.value.retries == 1 then Some(ReadbackUnknown)
    else None
  }

  ghost predicate Welcome(db: Db, a: Authority) { !db.cur.pending && db.cur.epochs == a.epochs }

  /** The live lease's holder asks for an unresolved intent that nobody owns, and
      the inherited phase still fits the retries spent. */
  ghost predicate MayClaim(db: Db, a: Authority) {
    && Welcome(db, a) && db.intent.Some? && !Seated(db) && !IsSettled(db)
    && E.Unresolved(db.intent.value.state) && HoldsLease(a, db.cur) && IsSuccessor(db.intent.value, a)
    && Inherited(db).Some? && PhaseMatches(Inherited(db).value, E.OutcomeUnknown, db.intent.value.retries)
  }

  function NextClaim(db: Db, a: Authority): Claim
    requires db.intent.Some? && Inherited(db).Some?
  {
    var d := Inherited(db).value;
    Claim(|db.claims| + 1, a, db.cur.binding, E.OutcomeUnknown, db.intent.value.retries, d, None,
          if d.RetryReserved? then Some(Absent) else None, None,
          if d.RetryReserved? then Outbox(Applied, true, false) else Outbox(Pending, false, false))
  }

  /** The rows once a claim that lost its authority is out of the way. */
  function Vacated(cs: seq<Claim>): seq<Claim> {
    if cs != [] && Active(Last(cs).disposition) then cs[|cs| - 1 := Invalidate(Last(cs))] else cs
  }

  function WithClaim(db: Db, a: Authority): Db
    requires db.intent.Some? && Inherited(db).Some?
  {
    db.(intent := Some(db.intent.value.(state := E.OutcomeUnknown)), claims := Vacated(db.claims) + [NextClaim(db, a)])
  }

  lemma VacatedLast(cs: seq<Claim>)
    requires RowsOk(cs) && cs != [] && !Settled(Last(cs).disposition)
    ensures var c := Last(Vacated(cs));
      && |Vacated(cs)| == |cs| && c.disposition.Invalidated? && c.invalidatedFrom == Some(Phase(Last(cs)))
      && c.generation == |cs| && (Phase(Last(cs)).RetryReserved? ==> c.receipt == Some(Absent))
  {
  }

  /** Issuing over vacated rows. */
  lemma IssueIs(db: Db, a: Authority)
    requires Inv(db) && db.intent.Some? && !IsSettled(db)
    ensures var out := Issue(db.(claims := Vacated(db.claims)), db.intent.value, a);
      && (out.Ok? <==>
            && E.Unresolved(db.intent.value.state) && HoldsLease(a, db.cur) && IsSuccessor(db.intent.value, a)
            && Inherited(db).Some? && PhaseMatches(Inherited(db).value, E.OutcomeUnknown, db.intent.value.retries))
      && (out.Ok? ==> out.value == (WithClaim(db, a), Some(NextClaim(db, a))))
  {
  }

  lemma AdmitsOwner(db: Db, a: Authority)
    requires Inv(db) && Seated(db)
    ensures Admit(db, a).0 == db
    ensures Admit(db, a).1 ==
      if !Welcome(db, a) then Err(StaleAuthority)
      else if db.intent == None then Ok(None)
      else if Last(db.claims).authority != a then Err(ClaimConflict)
      else if Owns(db, a) then Ok(Some(Last(db.claims)))
      else Err(SubjectMismatch)
  {
  }

  lemma AdmitsOther(db: Db, a: Authority)
    requires Inv(db) && Welcome(db, a) && db.intent.Some? && !Seated(db)
    ensures var out := Issue(db.(claims := Vacated(db.claims)), db.intent.value, a);
      Admit(db, a) == if out.Ok? then (out.value.0, Ok(out.value.1)) else (db, Err(out.error))
  {
  }

  /** A claim is answered exactly to the owner of the last row, which is that
      row, and to whoever may claim the intent, which is the next generation in
      the inherited phase; nothing else of the rows changes. */
  lemma AdmitsExactly(db: Db, a: Authority)
    requires Inv(db)
    ensures var (db', out) := Admit(db, a);
      && (out.Ok? && out.value.Some? <==> Owns(db, a) || MayClaim(db, a))
      && (Owns(db, a) ==> (db', out) == (db, Ok(Some(Last(db.claims)))))
      && (MayClaim(db, a) ==> (db', out) == (WithClaim(db, a), Ok(Some(NextClaim(db, a)))))
      && (out.Err? ==> db' == db)
  {
    if Seated(db) {
      AdmitsOwner(db, a);
    } else if Welcome(db, a) && db.intent.Some? {
      AdmitsOther(db, a);
      if IsSettled(db) { AdmitAfterSettled(db, a); } else { IssueIs(db, a); }
    }
  }

  /** What the other answers mean. */
  lemma AdmitRefusals(db: Db, a: Authority)
    requires Inv(db)
    ensures var out := Admit(db, a).1;
      && (out == Err(ClaimConflict) <==>
            Welcome(db, a) && db.intent.Some? && Seated(db) && Last(db.claims).authority != a)
      && (out == Ok(None) <==>
            && Welcome(db, a)
            && (db.intent == None
                || (IsSettled(db) && Synced(Last(db.claims), db.intent.value) && HoldsLease(a, db.cur)
                    && IsSuccessor(db.intent.value, a))))
      && (out == Err(StaleAuthority) <==>
            || !Welcome(db, a)
            || (db.intent.Some? && !Seated(db) && !HoldsLease(a, db.cur)
                && if IsSettled(db) then Synced(Last(db.claims), db.intent.value) else E.Unresolved(db.intent.value.state)))
      && (out == Err(RetryBudgetExhausted) <==>
            && Welcome(db, a) && db.intent.Some? && db.claims == [] && E.Unresolved(db.intent.value.state)
            && HoldsLease(a, db.cur) && IsSuccessor(db.intent.value, a) && db.intent.value.retries > 1)
  {
    if Seated(db) {
      AdmitsOwner(db, a);
    } else if Welcome(db, a) && db.intent.Some? {
      AdmitsOther(db, a);
      if db.claims != [] && !IsSettled(db) { VacatedLast(db.claims); }
    }
  }

  lemma ClaimedIsOwner(db: Db, a: Authority)
    requires Inv(db) && MayClaim(db, a)
    ensures var db' := WithClaim(db, a);
      Inv(db') && Owns(db', a) && Last(db'.claims) == NextClaim(db, a) && db'.cur == db.cur
  {
    AdmitsExactly(db, a);
    AdmitKeeps(db, a);
    AdmittedHoldsTheLease(db, a);
  }

  // ---- which requests are applied ---------------------------------------------------

  /** A readback or its failure, and the disposition it admits for this claim. */
  ghost predicate Admissible(c: Claim, r: Request, desired: Oid) {
    match r.to
    case Adopted => r.observation == Some(Observation(Some(desired), Match)) && r.reason == None
    case Orphaned =>
      && r.observation.Some? && r.observation.value.verdict.Mismatch? && r.reason == None
      && r.observation.value.oid.Some? && r.observation.value.oid.value != desired
    case RetryReserved => c.retries == 0 && r.observation == Some(Observation(None, Absent)) && r.reason == None
    case ReadbackUnknown => !c.disposition.ReadbackUnknown? && r.observation == None && r.reason == None
    case Quarantined =>
      && c.disposition.ReadbackUnknown?
      && ((c.retries == 1 && r.observation == Some(Observation(None, Absent)) && r.reason == Some(RetrySpentAfterAbsence))
          || (r.observation == None && r.reason == Some(ReadbackUnavailable)))
    case Invalidated => r.observation == None && r.reason == None
    case _ => false
  }

  /** The request speaks for this row. */
  ghost predicate Speaks(c: Claim, r: Request) {
    r.generation == c.generation && r.authority == c.authority && r.from == c.disposition
  }

  /** The row, and with it the intent and the outbox, that a request leaves. */
  function Resolved(c: Claim, r: Request): Claim {
    match r.to
    case Adopted => c.(disposition := Adopted, state := E.Committed, receipt := Some(Match), outbox := Acked(c.outbox, Verified))
    case Orphaned =>
      c.(disposition := Orphaned, state := E.OrphanedRemote, receipt := Some(Mismatch), outbox := Acked(c.outbox, Unknown))
    case RetryReserved =>
      c.(disposition := RetryReserved, state := E.Dispatching, retries := 1, receipt := Some(Absent),
         outbox := c.outbox.(phase := Applied, delivered := true))
    case ReadbackUnknown => c.(disposition := ReadbackUnknown, state := E.OutcomeUnknown, receipt := None)
    case Quarantined =>
      c.(disposition := Quarantined, state := E.Quarantined, reason := r.reason,
         receipt := if r.observation.Some? then Some(Absent) else None, outbox := Acked(c.outbox, Unknown))
    case _ => Invalidate(c)
  }

  function Acked(o: Outbox, phase: OutboxPhase): Outbox { o.(phase := phase, acked := true) }

  function After(db: Db, r: Request): Db
    requires db.claims != [] && db.intent.Some?
  {
    var c := Resolved(Last(db.claims), r);
    db.(intent := Some(db.intent.value.(state := c.state, retries := c.retries)),
        claims := db.claims[|db.claims| - 1 := c], log := db.log + [r])
  }

  /** The owner's request is applied exactly when it speaks for the owner's row
      and carries what its disposition asks for; then row, intent, outbox and log
      move together, and otherwise nothing does. */
  lemma AppliesExactly(db: Db, r: Request, a: Authority)
    requires Inv(db) && Owns(db, a) && r.generation == |db.claims| && r.to != Last(db.claims).disposition
    ensures var (db', out) := Apply(db, r, a);
      && (out.Ok? <==> Speaks(Last(db.claims), r) && Admissible(Last(db.claims), r, db.intent.value.desired))
      && (out.Ok? ==> (db', out) == (After(db, r), Ok(Resolved(Last(db.claims), r))))
      && (out.Err? ==> db' == db)
  {
  }

  /** A request that would be applied, made after the authority moved on, drops
      the claim instead and is told so. */
  lemma StaleIsDropped(db: Db, r: Request, a: Authority)
    requires Inv(db) && db.claims != [] && db.intent.Some?
    requires var c := Last(db.claims);
      && Active(c.disposition) && !ClaimIsCurrent(c, db.cur) && c.authority == a && r.to != c.disposition
      && Synced(c, db.intent.value) && ClaimValid(c, db.intent.value)
      && Speaks(c, r) && Admissible(c, r, db.intent.value.desired)
    ensures Apply(db, r, a) == (db.(claims := Vacated(db.claims)), Err(StaleAuthority))
  {
  }

  /** A row out of step with its intent answers nobody. */
  lemma OutOfStepIsRefused(db: Db, r: Request, a: Authority)
    requires 0 < r.generation <= |db.claims| && db.intent.Some?
    requires var c := db.claims[r.generation - 1]; !ClaimValid(c, db.intent.value) || !Synced(c, db.intent.value)
    ensures Apply(db, r, a) == (db, Err(SubjectMismatch))
  {
  }

  /** An owner that stays active is still the owner. */
  lemma OwnerStays(db: Db, r: Request, a: Authority)
    requires Inv(db) && Owns(db, a) && Active(r.to) && r.to != Last(db.claims).disposition
    requires Speaks(Last(db.claims), r) && Admissible(Last(db.claims), r, db.intent.value.desired)
    ensures Inv(After(db, r)) && Owns(After(db, r), a) && Last(After(db, r).claims) == Resolved(Last(db.claims), r)
  {
    assert RowOk(Last(db.claims));
    AppliesExactly(db, r, a);
    ApplyKeeps(db, r, a);
  }

  /** The retry is allowed exactly to the owner of a reserved row who read the ref
      as absent. */
  lemma RetryNeedsAbsence(c: Claim, a: Authority, seen: Option<Oid>, desired: Oid)
    requires RowOk(c)
    ensures MayRetry(c, a, Observe(seen, desired), desired) <==>
      seen == None && c.disposition.RetryReserved? && c.authority == a
  {
  }

  // ---- what an authority change unseats ----------------------------------------------

  /** An authority change drops the owner's row exactly when the epochs or the
      revision move, restore is pending, or the lease is no longer the owner's;
      a kept owner stays seated if its lease is still live and bound. */
  lemma MoveUnseats(db: Db, cur: Current)
    requires Inv(db) && Seated(db)
    ensures var moved := cur.epochs != db.cur.epochs || cur.binding != db.cur.binding || cur.pending
                         || cur.lease == None || cur.lease.value.owner != Last(db.claims).authority.owner;
      && Move(db, cur) == db.(claims := if moved then Vacated(db.claims) else db.claims, cur := cur)
      && (Seated(Move(db, cur)) <==> !moved && cur.lease.value.live && LeaseBound(cur.lease.value, cur))
  {
  }
}
