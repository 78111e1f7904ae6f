/** Restart recovery of one create-only effect intent: the disposition table,
    the rules a claim row and a transition request must meet, and the three
    store transactions as functions of the durable rows.

    The rows are those of one intent. A claim's `claim_id` is a digest that
    covers its generation, so a row is named by its generation here. The
    authority projection, its digest and its fingerprint are one value. */
module EffectRecovery {
  import opened Bytes
  import E = EffectStates

  const MAX_CREATE_RECOVERY_RETRIES: nat := 1

  datatype Disposition =
    | Unresolved
    | Claimed
    | RetryReserved
    | ReadbackUnknown
    | Adopted
    | Orphaned
    | Quarantined
    | Invalidated

  predicate Active(d: Disposition) { d.Claimed? || d.RetryReserved? || d.ReadbackUnknown? }
  predicate Settled(d: Disposition) { d.Adopted? || d.Orphaned? || d.Quarantined? }

  predicate Edge(from: Disposition, to: Disposition) {
    || (from.Unresolved? && to.Claimed?)
    || (Active(from) && (Settled(to) || to.Invalidated?))
    || ((from.Claimed? || from.RetryReserved?) && to.ReadbackUnknown?)
    || ((from.Claimed? || from.ReadbackUnknown?) && to.RetryReserved?)
  }

  datatype Verdict = Match | Mismatch | Absent
  datatype Reason = RetrySpentAfterAbsence | ReadbackUnavailable

  /** A Git object id. */
  type Oid = nat

  datatype Observation = Observation(oid: Option<Oid>, verdict: Verdict)

  /** The observed value agrees with its verdict for this desired value. */
  predicate Coherent(o: Observation, desired: Oid) {
    match o.verdict
    case Match => o.oid == Some(desired)
    case Absent => o.oid == None
    case Mismatch => o.oid.Some? && o.oid.value != desired
  }

  function Observe(seen: Option<Oid>, desired: Oid): (o: Observation)
    ensures Coherent(o, desired)
  {
    Observation(seen, if seen == None then Absent else if seen.value == desired then Match else Mismatch)
  }

  // ---- authority ----------------------------------------------------------

  datatype Epochs = Epochs(authority: nat, freeze: nat, restore: nat)
  datatype Owner = Owner(runner: nat, runnerEpoch: nat, attempt: nat, fence: nat, workspace: nat, nonce: nat)
  datatype Authority = Authority(owner: Owner, token: nat, epochs: Epochs)

  /** The active lease row of the intent's variant, with the authority revision
      it was granted under. `live` is the outcome of the lease snapshot check. */
  datatype Lease = Lease(owner: Owner, live: bool, epochs: Epochs, binding: nat)

  /** Current authority: the epochs, the graph/workspace/scope/policy/routing
      revision (`binding`), the restore quarantine flag and the lease row. */
  datatype Current = Current(epochs: Epochs, binding: nat, pending: bool, lease: Option<Lease>)

  // ---- rows ---------------------------------------------------------------

  datatype OutboxPhase = Pending | Applied | Verified | Unknown
  datatype Outbox = Outbox(phase: OutboxPhase, delivered: bool, acked: bool)

  datatype Intent = Intent(attempt: nat, fence: nat, desired: Oid, scoped: bool, state: E.EffectState, retries: nat)

  datatype Claim = Claim(
    generation: nat,
    authority: Authority,
    binding: nat,
    state: E.EffectState,
    retries: nat,
    disposition: Disposition,
    invalidatedFrom: Option<Disposition>,
    receipt: Option<Verdict>,
    reason: Option<Reason>,
    outbox: Outbox)

  datatype Request = Request(
    generation: nat,
    authority: Authority,
    from: Disposition,
    to: Disposition,
    observation: Option<Observation>,
    reason: Option<Reason>)

  /** The durable rows of one intent and the current authority. `log` holds the
      transition events, one for every applied request. */
  datatype Db = Db(intent: Option<Intent>, claims: seq<Claim>, log: seq<Request>, cur: Current)

  datatype Error = Store | InvalidClaim | SubjectMismatch | StaleAuthority | ClaimConflict
                 | UnknownClaim | RetryBudgetExhausted | InvalidTransition | InvalidObservation
  datatype Outcome<+T> = Ok(value: T) | Err(error: Error)

  // ---- row rules ----------------------------------------------------------

  predicate PhaseMatches(phase: Disposition, state: E.EffectState, retries: nat) {
    match phase
    case Claimed => state.OutcomeUnknown? && retries == 0
    case RetryReserved => (state.Dispatching? || state.OutcomeUnknown?) && retries == MAX_CREATE_RECOVERY_RETRIES
    case ReadbackUnknown => state.OutcomeUnknown? && retries <= MAX_CREATE_RECOVERY_RETRIES
    case _ => false
  }

  predicate DispositionStateIsValid(c: Claim) {
    match c.disposition
    case Claimed => c.invalidatedFrom == None && PhaseMatches(c.disposition, c.state, c.retries)
    case RetryReserved => c.invalidatedFrom == None && PhaseMatches(c.disposition, c.state, c.retries)
    case ReadbackUnknown => c.invalidatedFrom == None && PhaseMatches(c.disposition, c.state, c.retries)
    case Invalidated => c.invalidatedFrom.Some? && PhaseMatches(c.invalidatedFrom.value, c.state, c.retries)
    case Adopted => c.invalidatedFrom == None && c.state.Committed?
    case Orphaned => c.invalidatedFrom == None && c.state.OrphanedRemote?
    case Quarantined => c.invalidatedFrom == None && c.state.Quarantined?
    case Unresolved => false
  }

  /** The CHECK constraints of the claims table. */
  predicate RowCheck(c: Claim) {
    && DispositionStateIsValid(c)
    && c.retries <= MAX_CREATE_RECOVERY_RETRIES
    && (c.disposition.Quarantined? <==> c.reason.Some?)
    && match c.disposition
       case Claimed => c.receipt == None
       case ReadbackUnknown => c.receipt == None
       case RetryReserved => c.receipt.Some?
       case Adopted => c.receipt.Some?
       case Orphaned => c.receipt.Some?
       case Quarantined => c.receipt.Some? <==> c.reason == Some(RetrySpentAfterAbsence)
       case Invalidated => c.receipt.Some? <==> c.invalidatedFrom == Some(RetryReserved)
       case Unresolved => false
  }

  /** The claim's snapshot is the intent row it was taken from. */
  predicate Synced(c: Claim, i: Intent) { c.state == i.state && c.retries == i.retries }

  /** The claim is well formed for this intent (`validate`). */
  predicate ClaimValid(c: Claim, i: Intent) {
    && i.scoped
    && c.retries <= MAX_CREATE_RECOVERY_RETRIES
    && c.authority.owner.attempt != i.attempt
    && c.authority.owner.fence > i.fence
    && c.generation > 0
    && DispositionStateIsValid(c)
  }

  predicate LeaseBound(l: Lease, cur: Current) { l.epochs == cur.epochs && l.binding == cur.binding }

  predicate ClaimIsCurrent(c: Claim, cur: Current) {
    && !cur.pending
    && c.binding == cur.binding
    && c.authority.epochs == cur.epochs
    && cur.lease.Some?
    && cur.lease.value.live
    && cur.lease.value.owner == c.authority.owner
    && LeaseBound(cur.lease.value, cur)
  }

  predicate HoldsLease(a: Authority, cur: Current) {
    cur.lease.Some? && cur.lease.value.live && cur.lease.value.owner == a.owner && LeaseBound(cur.lease.value, cur)
  }

  predicate IsSuccessor(i: Intent, a: Authority) {
    i.scoped && a.owner.fence > i.fence && a.owner.attempt != i.attempt
  }

  /** The claim leaves ownership and keeps its phase; its outbox row is acked. */
  function Invalidate(c: Claim): Claim {
    c.(disposition := Invalidated, invalidatedFrom := Some(c.disposition), outbox := c.outbox.(phase := Unknown, acked := true))
  }

  function ActiveIndex(cs: seq<Claim>): (r: Option<nat>)
    ensures r.Some? ==> r.value < |cs| && Active(cs[r.value].disposition)
    ensures r.None? ==> forall k | 0 <= k < |cs| :: !Active(cs[k].disposition)
  {
    if cs == [] then None
    else if Active(cs[|cs| - 1].disposition) then Some(|cs| - 1)
    else ActiveIndex(cs[..|cs| - 1])
  }

  // ---- claim --------------------------------------------------------------

  function NextDisposition(prev: Option<Claim>, i: Intent): Outcome<Disposition> {
    if prev.Some? && prev.value.disposition.Invalidated? then
      (if prev.value.invalidatedFrom.Some? then Ok(prev.value.invalidatedFrom.value) else Err(Store))
    else if i.retries == 0 then Ok(Claimed)
    else if i.retries == 1 then Ok(ReadbackUnknown)
    else Err(RetryBudgetExhausted)
  }

  predicate GenerationFollows(c: Claim, prev: Option<Claim>) {
    match prev
    case None =>
      c.generation == 1 && ((c.disposition.Claimed? && c.retries == 0) || (c.disposition.ReadbackUnknown? && c.retries == 1))
    case Some(p) =>
      p.disposition.Invalidated? && p.invalidatedFrom == Some(c.disposition) && c.generation == p.generation + 1
  }

  function Latest(cs: seq<Claim>): Option<Claim> {
    if cs == [] then None else Some(cs[|cs| - 1])
  }

  /** The row inserted for a new owner, with the insert trigger's outbox mark. */
  function NewClaim(prev: Option<Claim>, i: Intent, d: Disposition, a: Authority, cur: Current): Claim {
    Claim(if prev.Some? then prev.value.generation + 1 else 1, a, cur.binding, i.state, i.retries, d, None,
          if d.RetryReserved? && prev.Some? then prev.value.receipt else None, None,
          if d.RetryReserved? then Outbox(Applied, true, false) else Outbox(Pending, false, false))
  }

  /** Issues the next generation over rows without an active claim. */
  function Issue(db: Db, i: Intent, a: Authority): Outcome<(Db, Option<Claim>)> {
    var prev := Latest(db.claims);
    if prev.Some? && Settled(prev.value.disposition) then
      if !Synced(prev.value, i) then Err(SubjectMismatch)
      else if !HoldsLease(a, db.cur) then Err(StaleAuthority)
      else if !IsSuccessor(i, a) then Err(SubjectMismatch)
      else Ok((db, None))
    else if !E.Unresolved(i.state) then Err(InvalidTransition)
    else if !HoldsLease(a, db.cur) then Err(StaleAuthority)
    else if !IsSuccessor(i, a) then Err(SubjectMismatch)
    else
      var i' := i.(state := E.OutcomeUnknown);
      match NextDisposition(prev, i')
      case Err(e) => Err(e)
      case Ok(d) =>
        var c := NewClaim(prev, i', d, a, db.cur);
        if d.RetryReserved? && c.receipt == None then Err(SubjectMismatch)
        else if !ClaimValid(c, i') || !GenerationFollows(c, prev) || !RowCheck(c) then Err(InvalidClaim)
        else Ok((db.(intent := Some(i'), claims := db.claims + [c]), Some(c)))
  }

  /** The active claim, if any, loses its ownership. */
  function Vacate(db: Db): Db {
    var k := ActiveIndex(db.claims);
    if k.Some? then db.(claims := db.claims[k.value := Invalidate(db.claims[k.value])]) else db
  }

  /** `claim_effect_recovery`: the rows after the transaction and its answer. */
  function Admit(db: Db, a: Authority): (Db, Outcome<Option<Claim>>) {
    if db.cur.pending || db.cur.epochs != a.epochs then (db, Err(StaleAuthority))
    else if db.intent == None then (db, Ok(None))
    else
      var i := db.intent.value;
      var k := ActiveIndex(db.claims);
      if k.Some? && db.claims[k.value].authority == a && ClaimIsCurrent(db.claims[k.value], db.cur) then
        (db, if Synced(db.claims[k.value], i) && ClaimValid(db.claims[k.value], i)
             then Ok(Some(db.claims[k.value])) else Err(SubjectMismatch))
      else if k.Some? && ClaimIsCurrent(db.claims[k.value], db.cur) then (db, Err(ClaimConflict))
      else
        match Issue(Vacate(db), i, a)
        case Err(e) => (db, Err(e))
        case Ok((db', c)) => (db', Ok(c))
  }

  // ---- readback -----------------------------------------------------------

  /** `validate_readback`: the active claim of exactly this owner. */
  function OwnerError(c: Claim, a: Authority): Option<Error> {
    if !Active(c.disposition) then Some(UnknownClaim)
    else if c.authority.owner != a.owner then Some(ClaimConflict)
    else if c.authority != a then Some(StaleAuthority)
    else None
  }

  function Readback(db: Db, a: Authority): Outcome<Option<Claim>> {
    var k := ActiveIndex(db.claims);
    if k == None then Ok(None)
    else
      var c := db.claims[k.value];
      match OwnerError(c, a)
      case Some(e) => Err(e)
      case None => if ClaimIsCurrent(c, db.cur) then Ok(Some(c)) else Err(StaleAuthority)
  }

  /** `validate_reserved_retry`: an absent readback by the owner of a claim
      whose one retry is reserved. */
  predicate MayRetry(c: Claim, a: Authority, o: Observation, desired: Oid) {
    && OwnerError(c, a) == None
    && Coherent(o, desired)
    && c.disposition.RetryReserved?
    && c.retries == MAX_CREATE_RECOVERY_RETRIES
    && o.verdict.Absent?
  }

  // ---- apply --------------------------------------------------------------

  /** `validate_for`: owner, edge, budget, verdict and containment predicate. */
  function RequestError(r: Request, c: Claim, a: Authority, desired: Oid): Option<Error> {
    var verdict := if r.observation.Some? then Some(r.observation.value.verdict) else None;
    if r.generation != c.generation || r.authority != c.authority || r.from != c.disposition then Some(SubjectMismatch)
    else if OwnerError(c, a).Some? then OwnerError(c, a)
    else if !Edge(r.from, r.to) then Some(InvalidTransition)
    else if r.observation.Some? && !Coherent(r.observation.value, desired) then Some(InvalidObservation)
    else match r.to
      case RetryReserved =>
        if c.retries >= MAX_CREATE_RECOVERY_RETRIES then Some(RetryBudgetExhausted)
        else if verdict != Some(Absent) then Some(InvalidObservation)
        else None
      case ReadbackUnknown => if r.observation.Some? || r.reason.Some? then Some(InvalidObservation) else None
      case Invalidated => if r.observation.Some? || r.reason.Some? then Some(InvalidObservation) else None
      case Adopted => if verdict != Some(Match) || r.reason.Some? then Some(InvalidObservation) else None
      case Orphaned => if verdict != Some(Mismatch) || r.reason.Some? then Some(InvalidObservation) else None
      case Quarantined =>
        var spentAbsence := r.from.ReadbackUnknown? && c.retries == MAX_CREATE_RECOVERY_RETRIES
                            && verdict == Some(Absent) && r.reason == Some(RetrySpentAfterAbsence);
        var unavailable := r.observation == None && r.from.ReadbackUnknown? && r.reason == Some(ReadbackUnavailable);
        if spentAbsence || unavailable then None else Some(InvalidObservation)
      case _ => Some(InvalidTransition)
  }

  function TargetState(c: Claim, to: Disposition): E.EffectState {
    match to
    case RetryReserved => E.Dispatching
    case ReadbackUnknown => E.OutcomeUnknown
    case Adopted => E.Committed
    case Orphaned => E.OrphanedRemote
    case Quarantined => E.Quarantined
    case _ => c.state
  }

  function TargetOutbox(o: Outbox, to: Disposition): Outcome<Outbox> {
    if to.ReadbackUnknown? then Ok(o)
    else if to.Invalidated? then Ok(o.(phase := Unknown, acked := true))
    else if !(o.phase.Pending? || o.phase.Applied?) then Err(Store)
    else if to.RetryReserved? then (if o.delivered then Err(Store) else Ok(o.(phase := Applied, delivered := true)))
    else if o.acked then Err(Store)
    else Ok(o.(phase := if to.Adopted? then Verified else Unknown, acked := true))
  }

  function ReceiptOf(r: Request): Option<Verdict> {
    if r.observation.Some? then Some(r.observation.value.verdict) else None
  }

  function Updated(c: Claim, r: Request, outbox: Outbox): Claim {
    c.(disposition := r.to,
       invalidatedFrom := if r.to.Invalidated? then Some(c.disposition) else None,
       receipt := if ReceiptOf(r).Some? then ReceiptOf(r) else if r.to.Invalidated? then c.receipt else None,
       reason := r.reason,
       state := TargetState(c, r.to),
       retries := if r.to.RetryReserved? then MAX_CREATE_RECOVERY_RETRIES else c.retries,
       outbox := outbox)
  }

  function Count(log: seq<Request>, r: Request): nat {
    if log == [] then 0 else Count(log[..|log| - 1], r) + (if log[|log| - 1] == r then 1 else 0)
  }

  /** A repeated request answers from the retained event, changing nothing. */
  function Replay(db: Db, c: Claim, r: Request, a: Authority): Outcome<Claim> {
    if r.authority != c.authority || c.authority != a then Err(SubjectMismatch)
    else if !Edge(r.from, r.to) then Err(InvalidTransition)
    else if !ClaimIsCurrent(c, db.cur) then Err(StaleAuthority)
    else if Count(db.log, r) != 1 || ReceiptOf(r) != c.receipt || r.reason != c.reason then Err(SubjectMismatch)
    else Ok(c)
  }

  /** `apply_effect_recovery`: the rows after the transaction and its answer. */
  function Apply(db: Db, r: Request, a: Authority): (Db, Outcome<Claim>) {
    if r.generation == 0 || r.generation > |db.claims| then (db, Err(UnknownClaim))
    else if db.intent == None then (db, Err(Store))
    else
      var k := r.generation - 1;
      var c := db.claims[k];
      var i := db.intent.value;
      if !ClaimValid(c, i) || !Synced(c, i) then (db, Err(SubjectMismatch))
      else if c.disposition == r.to then (db, Replay(db, c, r, a))
      else match RequestError(r, c, a, i.desired)
        case Some(e) => (db, Err(e))
        case None =>
          if !ClaimIsCurrent(c, db.cur) then (db.(claims := db.claims[k := Invalidate(c)]), Err(StaleAuthority))
          else match TargetOutbox(c.outbox, r.to)
            case Err(e) => (db, Err(e))
            case Ok(outbox) =>
              var c' := Updated(c, r, outbox);
              if !RowCheck(c') then (db, Err(Store))
              else (db.(intent := Some(i.(state := c'.state, retries := c'.retries)),
                        claims := db.claims[k := c'], log := db.log + [r]), Ok(c'))
  }

  // ---- authority moves ----------------------------------------------------

  /** The invalidation triggers fire for the active claim when the revision,
      the restore state or its lease row changes under it. */
  predicate TriggerFires(c: Claim, was: Current, cur: Current) {
    || ((was.epochs != cur.epochs || was.binding != cur.binding || was.pending != cur.pending)
        && (c.authority.epochs != cur.epochs || c.binding != cur.binding || cur.pending))
    || (was.lease.Some? && was.lease.value.owner == c.authority.owner
        && (cur.lease == None || cur.lease.value.owner != was.lease.value.owner))
  }

  function Move(db: Db, cur: Current): Db {
    var k := ActiveIndex(db.claims);
    if k.Some? && TriggerFires(db.claims[k.value], db.cur, cur) then Vacate(db).(cur := cur) else db.(cur := cur)
  }
}
