/** Whole runs of restart recovery: any number of executor processes, each
    reconciling the intent under its own authority, crashing and restarting
    at will, beside a changing authority, the original broker, foreign ref
    writers and pushes that land late or never. A run is any list of steps;
    a step that is not enabled changes nothing. */
module RecoveryRuns {
  import opened Bytes
  import E = EffectStates
  import opened EffectRecovery
  import opened RecoveryInvariants

  /** Where one executor stands between its transactions and forge calls. */
  datatype Pc =
    | Idle
    | HasClaim(claim: Claim)
    | Read(claim: Claim, seen: Option<Oid>)
    | ReadFailed(claim: Claim)
    | ToRetry(claim: Claim)
    | Cleared(claim: Claim)
    | Sent(claim: Claim)

  datatype Proc = Proc(authority: Authority, pc: Pc)

  /** `remote` is the create-only ref, `inflight` the pushes sent and not yet
      landed, `writes` the times the ref was set, `pushes` the generations
      under which an executor sent a push. */
  datatype Sys = Sys(
    db: Db,
    desired: Oid,
    remote: Option<Oid>,
    inflight: nat,
    writes: nat,
    pushes: seq<nat>,
    procs: map<nat, Proc>)

  datatype Step =
    | Start(p: nat, a: Authority)
    | ClaimStep(p: nat)
    | ReadStep(p: nat, ok: bool)
    | SettleStep(p: nat)
    | ClearStep(p: nat)
    | PushStep(p: nat)
    | ReplyStep(p: nat, ok: bool)
    | Land
    | Lose
    | OriginalPush
    | ForeignCreate(x: Oid)
    | MoveStep(cur: Current)
    | BrokerStep(to: E.EffectState)

  /** The executor builds a request from the claim it holds, which validates
      it once, and hands it to the store, which validates it again. */
  function Propose(db: Db, c: Claim, r: Request): (Db, Outcome<Claim>) {
    if db.intent == None then (db, Err(Store))
    else match RequestError(r, c, r.authority, db.intent.value.desired)
      case Some(e) => (db, Err(e))
      case None => Apply(db, r, r.authority)
  }

  function UnknownAfterPush(c: Claim, a: Authority): Request {
    Request(c.generation, a, c.disposition, ReadbackUnknown, None, None)
  }

  /** The request a readback leads to, if it leads to one. */
  function SettleRequest(s: Sys, p: Proc): Option<Request> {
    var absent := Some(Observe(None, s.desired));
    match p.pc
    case Read(c, Some(x)) =>
      Some(Request(c.generation, p.authority, c.disposition, if x == s.desired then Adopted else Orphaned,
                   Some(Observe(Some(x), s.desired)), None))
    case Read(c, None) =>
      if c.disposition.Claimed? || (c.disposition.ReadbackUnknown? && c.retries == 0)
      then Some(Request(c.generation, p.authority, c.disposition, RetryReserved, absent, None))
      else if c.disposition.ReadbackUnknown?
      then Some(Request(c.generation, p.authority, c.disposition, Quarantined, absent, Some(RetrySpentAfterAbsence)))
      else None
    case ReadFailed(c) =>
      if c.disposition.ReadbackUnknown?
      then Some(Request(c.generation, p.authority, c.disposition, Quarantined, None, Some(ReadbackUnavailable)))
      else Some(Request(c.generation, p.authority, c.disposition, ReadbackUnknown, None, None))
    case _ => None
  }

  /** The transaction an executor runs after a readback. */
  function Settle(s: Sys, p: Proc): (Db, Outcome<Claim>)
    requires p.pc.Read? || p.pc.ReadFailed?
  {
    match SettleRequest(s, p)
    case Some(r) => Propose(s.db, p.pc.claim, r)
    case None => (s.db, Ok(p.pc.claim))
  }

  function AfterSettle(pc: Pc, out: Outcome<Claim>): Pc {
    if pc.Read? && pc.seen == None && out.Ok? && out.value.disposition.RetryReserved? then ToRetry(out.value) else Idle
  }

  function AfterClaim(out: Outcome<Option<Claim>>, a: Authority): Pc {
    if out.Ok? && out.value.Some? && OwnerError(out.value.value, a) == None then HasClaim(out.value.value) else Idle
  }

  function AfterReply(out: Outcome<Claim>, ok: bool): Pc { if out.Ok? && ok then HasClaim(out.value) else Idle }

  /** The revalidation immediately before the push: the claim held, the claim
      read back, and their identity. */
  function Clear(s: Sys, p: Proc): Pc
    requires p.pc.ToRetry?
  {
    var c, absent := p.pc.claim, Observe(None, s.desired);
    if !MayRetry(c, p.authority, absent, s.desired) then Idle
    else match Readback(s.db, p.authority)
      case Ok(Some(now)) =>
        if now.generation == c.generation && MayRetry(now, p.authority, absent, s.desired) then Cleared(now) else Idle
      case _ => Idle
  }

  function At(s: Sys, p: nat, pc: Pc): Sys
    requires p in s.procs
  {
    s.(procs := s.procs[p := s.procs[p].(pc := pc)])
  }

  function Write(s: Sys, x: Oid): Sys {
    if s.remote == None then s.(remote := Some(x), writes := s.writes + 1) else s
  }

  function BrokerMove(i: Intent, to: E.EffectState): Intent {
    if !E.Edge(i.state, to) then i
    else i.(state := to, retries := if i.state.OutcomeUnknown? && to.Dispatching? then i.retries + 1 else i.retries)
  }

  function ProcStep(s: Sys, p: nat, step: Step): Sys
    requires p in s.procs
  {
    var me := s.procs[p];
    match (step, me.pc)
    case (ClaimStep(_), Idle) =>
      var (db, out) := Admit(s.db, me.authority);
      At(s.(db := db), p, AfterClaim(out, me.authority))
    case (ReadStep(_, ok), HasClaim(c)) => At(s, p, if ok then Read(c, s.remote) else ReadFailed(c))
    case (SettleStep(_), Read(_, _)) =>
      var (db, out) := Settle(s, me);
      At(s.(db := db), p, AfterSettle(me.pc, out))
    case (SettleStep(_), ReadFailed(_)) =>
      var (db, out) := Settle(s, me);
      At(s.(db := db), p, AfterSettle(me.pc, out))
    case (ClearStep(_), ToRetry(_)) => At(s, p, Clear(s, me))
    case (PushStep(_), Cleared(c)) =>
      At(s, p, Sent(c)).(inflight := s.inflight + 1, pushes := s.pushes + [c.generation])
    case (ReplyStep(_, ok), Sent(c)) =>
      var (db, out) := Propose(s.db, c, UnknownAfterPush(c, me.authority));
      At(s.(db := db), p, AfterReply(out, ok))
    case _ => s
  }

  function Do(s: Sys, step: Step): Sys {
    match step
    case Start(p, a) => s.(procs := s.procs[p := Proc(a, Idle)])
    case Land => if s.inflight == 0 then s else Write(s.(inflight := s.inflight - 1), s.desired)
    case Lose => if s.inflight == 0 then s else s.(inflight := s.inflight - 1)
    case OriginalPush => s.(inflight := s.inflight + 1)
    case ForeignCreate(x) => Write(s, x)
    case MoveStep(cur) => s.(db := Move(s.db, cur))
    case BrokerStep(to) =>
      if s.db.intent == None then s else s.(db := s.db.(intent := Some(BrokerMove(s.db.intent.value, to))))
    case _ => if step.p in s.procs then ProcStep(s, step.p, step) else s
  }

  function Run(s: Sys, steps: seq<Step>): Sys
    decreases |steps|
  {
    if steps == [] then s else Run(Do(s, steps[0]), steps[1..])
  }

  /** What a step does to the stored rows. */
  datatype DbWrite = Same | ByClaim(a: Authority) | ByRequest(r: Request) | ByMove(cur: Current) | ByBroker(to: E.EffectState)

  function DbAfter(db: Db, k: DbWrite): Db {
    match k
    case Same => db
    case ByClaim(a) => Admit(db, a).0
    case ByRequest(r) => Apply(db, r, r.authority).0
    case ByMove(cur) => Move(db, cur)
    case ByBroker(to) =>
      if db.intent == None then db else db.(intent := Some(BrokerMove(db.intent.value, to)))
  }

  function ProposeStep(db: Db, c: Claim, r: Request): DbWrite {
    if db.intent.Some? && RequestError(r, c, r.authority, db.intent.value.desired) == None then ByRequest(r) else Same
  }

  function WriteOf(s: Sys, step: Step): DbWrite {
    match step
    case MoveStep(cur) => ByMove(cur)
    case BrokerStep(to) => ByBroker(to)
    case ClaimStep(p) => if p in s.procs && s.procs[p].pc.Idle? then ByClaim(s.procs[p].authority) else Same
    case SettleStep(p) =>
      if p in s.procs && SettleRequest(s, s.procs[p]).Some?
      then ProposeStep(s.db, s.procs[p].pc.claim, SettleRequest(s, s.procs[p]).value) else Same
    case ReplyStep(p, _) =>
      if p in s.procs && s.procs[p].pc.Sent?
      then ProposeStep(s.db, s.procs[p].pc.claim, UnknownAfterPush(s.procs[p].pc.claim, s.procs[p].authority)) else Same
    case _ => Same
  }

  lemma DbOf(s: Sys, step: Step)
    ensures Do(s, step).db == DbAfter(s.db, WriteOf(s, step))
  {
  }

  // ---- the invariant of a run ---------------------------------------------

  ghost predicate ProcOk(db: Db, remote: Option<Oid>, me: Proc) {
    match me.pc
    case Read(c, Some(x)) => remote == Some(x)
    case Cleared(c) => Licensed(db, me, c)
    case Sent(c) => Licensed(db, me, c)
    case _ => true
  }

  /** The retry this push spends was reserved, once, under this authority. */
  ghost predicate Licensed(db: Db, me: Proc, c: Claim) {
    && c.disposition.RetryReserved? && c.retries == MAX_CREATE_RECOVERY_RETRIES && c.authority == me.authority
    && SpentBy(db, c.generation)
  }

  ghost predicate SpentBy(db: Db, generation: nat) {
    0 < generation <= |db.claims| && db.claims[generation - 1].retries == 1 && Reservations(db.log) == 1
  }

  ghost predicate LastAgrees(cs: seq<Claim>, remote: Option<Oid>, desired: Oid) {
    cs != [] ==>
      && (cs[|cs| - 1].disposition.Adopted? ==> remote == Some(desired))
      && (cs[|cs| - 1].disposition.Orphaned? ==> remote.Some? && remote.value != desired)
  }

  ghost predicate Desires(db: Db, desired: Oid) { db.intent.Some? ==> db.intent.value.desired == desired }

  ghost predicate ProcsOk(db: Db, remote: Option<Oid>, procs: map<nat, Proc>) {
    forall p | p in procs :: ProcOk(db, remote, procs[p])
  }

  ghost predicate PushesOk(db: Db, pushes: seq<nat>) {
    forall g | g in pushes :: SpentBy(db, g)
  }

  ghost predicate SysInv(s: Sys) {
    && Inv(s.db)
    && Desires(s.db, s.desired)
    && LastAgrees(s.db.claims, s.remote, s.desired)
    && s.writes == (if s.remote == None then 0 else 1)
    && PushesOk(s.db, s.pushes)
    && ProcsOk(s.db, s.remote, s.procs)
  }

  /** A fresh intent: no claim yet, no writes, no executor running. */
  ghost predicate Init(s: Sys) {
    && s.db.claims == [] && s.db.log == [] && s.remote == None && s.writes == 0 && s.pushes == [] && s.procs == map[]
    && (s.db.intent.Some? ==> s.db.intent.value.desired == s.desired)
  }

  /** What a store transaction does to the history a run accumulates: rows are
      never dropped, their spent budget never returns, reservations stay. */
  ghost predicate Grows(db: Db, db': Db) {
    && |db.claims| <= |db'.claims|
    && (forall k | 0 <= k < |db.claims| :: db.claims[k].retries <= db'.claims[k].retries)
    && Reservations(db.log) <= Reservations(db'.log)
    && (db.intent.Some? <==> db'.intent.Some?)
    && (db.intent.Some? ==> db'.intent.value.desired == db.intent.value.desired)
  }

  lemma GrowsTrans(a: Db, b: Db, c: Db)
    requires Grows(a, b) && Grows(b, c)
    ensures Grows(a, c)
  {
  }

  lemma AdmitGrows(db: Db, a: Authority)
    requires Inv(db)
    ensures Grows(db, Admit(db, a).0)
    ensures Admit(db, a).0 == db || Fresh(db.claims, Admit(db, a).0.claims)
  {
    AdmitCases(db, a);
    VacateKeeps(db);
    assert Grows(db, Vacate(db));
    if Admit(db, a).0 != db {
      IssueGrows(Vacate(db), db.intent.value, a);
      GrowsTrans(db, Vacate(db), Admit(db, a).0);
    }
  }

  /** The last row is a new active claim, or the rows have no settled last. */
  ghost predicate Fresh(cs: seq<Claim>, cs': seq<Claim>) {
    cs' == [] || !Settled(cs'[|cs'| - 1].disposition) || cs' == cs
  }

  lemma IssueGrows(db: Db, i: Intent, a: Authority)
    requires Inv(db) && db.intent == Some(i)
    requires forall k | 0 <= k < |db.claims| :: !Active(db.claims[k].disposition)
    requires Issue(db, i, a).Ok?
    ensures Grows(db, Issue(db, i, a).value.0)
    ensures Fresh(db.claims, Issue(db, i, a).value.0.claims)
  {
  }

  lemma ApplyGrows(db: Db, r: Request, a: Authority)
    requires Inv(db)
    ensures Grows(db, Apply(db, r, a).0)
  {
    ApplyCases(db, r, a);
    if Apply(db, r, a).0 != db && Apply(db, r, a).1.Ok? { TakenGrows(db, r, a); }
  }

  lemma TakenGrows(db: Db, r: Request, a: Authority)
    requires Inv(db) && Accepted(db, r, a) && RowCheck(Row(db, r))
    ensures Grows(db, Taken(db, r))
  {
  }

  /** One store transaction inside a run. */
  lemma DbKeeps(s: Sys, db': Db)
    requires SysInv(s) && Inv(db') && Grows(s.db, db') && LastAgrees(db'.claims, s.remote, s.desired)
    ensures SysInv(s.(db := db'))
  {
  }

  /** However many claims succeed one another, one retry is all there is. */
  lemma BudgetIsOne(db: Db)
    requires Inv(db)
    ensures Reservations(db.log) <= 1 && Edges(db.log) <= 4
    ensures forall k | 0 <= k < |db.claims| :: db.claims[k].retries <= 1
  {
  }

  lemma PcStep(s: Sys, p: nat, pc: Pc)
    requires SysInv(s) && p in s.procs && ProcOk(s.db, s.remote, s.procs[p].(pc := pc))
    ensures SysInv(At(s, p, pc))
  {
  }

  lemma ProposeKeeps(s: Sys, c: Claim, r: Request)
    requires SysInv(s)
    requires r.observation.Some? && r.observation.value.oid.Some? ==> s.remote == r.observation.value.oid
    ensures SysInv(s.(db := Propose(s.db, c, r).0))
  {
    var db' := Propose(s.db, c, r).0;
    if db' == s.db { return; }
    ApplyKeeps(s.db, r, r.authority);
    ApplyGrows(s.db, r, r.authority);
    ApplyAgrees(s, r, r.authority);
    DbKeeps(s, db');
  }

  /** A settled row says what the ref holds when its request read the ref. */
  lemma ApplyAgrees(s: Sys, r: Request, a: Authority)
    requires SysInv(s)
    requires r.observation.Some? && r.observation.value.oid.Some? ==> s.remote == r.observation.value.oid
    ensures LastAgrees(Apply(s.db, r, a).0.claims, s.remote, s.desired)
  {
  }

  /** Revalidation passes only for the one active, current, reserved claim. */
  lemma ClearLicenses(s: Sys, me: Proc)
    requires SysInv(s) && me.pc.ToRetry?
    ensures ProcOk(s.db, s.remote, me.(pc := Clear(s, me)))
    ensures Clear(s, me).Cleared? ==>
      var c := Clear(s, me).claim;
      && s.db.claims != [] && c == s.db.claims[|s.db.claims| - 1]
      && ClaimIsCurrent(c, s.db.cur) && c.authority == me.authority
      && c.disposition.RetryReserved? && c.retries == 1 && c.receipt == Some(Absent)
  {
  }

  lemma ClaimKeeps(s: Sys, a: Authority)
    requires SysInv(s)
    ensures SysInv(s.(db := Admit(s.db, a).0))
  {
    AdmitKeeps(s.db, a);
    AdmitGrows(s.db, a);
    var db := Admit(s.db, a).0;
    assert LastAgrees(db.claims, s.remote, s.desired);
    DbKeeps(s, db);
  }

  lemma PushKeeps(s: Sys, p: nat)
    requires SysInv(s) && p in s.procs && s.procs[p].pc.Cleared?
    ensures var c := s.procs[p].pc.claim;
      && Licensed(s.db, s.procs[p], c)
      && SysInv(At(s, p, Sent(c)).(inflight := s.inflight + 1, pushes := s.pushes + [c.generation]))
  {
  }

  lemma SettleKeeps(s: Sys, me: Proc)
    requires SysInv(s) && ProcOk(s.db, s.remote, me) && (me.pc.Read? || me.pc.ReadFailed?)
    ensures SysInv(s.(db := Settle(s, me).0))
  {
    var r := SettleRequest(s, me);
    if r.Some? { ProposeKeeps(s, me.pc.claim, r.value); }
  }

  lemma ProcStepKeeps(s: Sys, p: nat, step: Step)
    requires SysInv(s) && p in s.procs
    ensures SysInv(ProcStep(s, p, step))
  {
    var me := s.procs[p];
    assert ProcOk(s.db, s.remote, me);
    match me.pc
    case Idle => if step.ClaimStep? { ClaimStepKeeps(s, p); }
    case HasClaim(c) => if step.ReadStep? { PcStep(s, p, if step.ok then Read(c, s.remote) else ReadFailed(c)); }
    case Read(_, _) => if step.SettleStep? { SettleStepKeeps(s, p); }
    case ReadFailed(_) => if step.SettleStep? { SettleStepKeeps(s, p); }
    case ToRetry(_) => if step.ClearStep? { ClearLicenses(s, me); PcStep(s, p, Clear(s, me)); }
    case Cleared(c) => if step.PushStep? { PushKeeps(s, p); }
    case Sent(c) => if step.ReplyStep? { ReplyStepKeeps(s, p, c, UnknownAfterPush(c, me.authority), step.ok); }
  }

  lemma ClaimStepKeeps(s: Sys, p: nat)
    requires SysInv(s) && p in s.procs
    ensures var (db, out) := Admit(s.db, s.procs[p].authority);
            SysInv(At(s.(db := db), p, AfterClaim(out, s.procs[p].authority)))
  {
    var a := s.procs[p].authority;
    ClaimKeeps(s, a);
    var (db, out) := Admit(s.db, a);
    PcStep(s.(db := db), p, AfterClaim(out, a));
  }

  lemma ReplyStepKeeps(s: Sys, p: nat, c: Claim, r: Request, ok: bool)
    requires SysInv(s) && p in s.procs && r.observation == None
    ensures var (db, out) := Propose(s.db, c, r); SysInv(At(s.(db := db), p, AfterReply(out, ok)))
  {
    ProposeKeeps(s, c, r);
    var (db, out) := Propose(s.db, c, r);
    PcStep(s.(db := db), p, AfterReply(out, ok));
  }

  lemma SettleStepKeeps(s: Sys, p: nat)
    requires SysInv(s) && p in s.procs && (s.procs[p].pc.Read? || s.procs[p].pc.ReadFailed?)
    ensures var (db, out) := Settle(s, s.procs[p]); SysInv(At(s.(db := db), p, AfterSettle(s.procs[p].pc, out)))
  {
    var me := s.procs[p];
    assert ProcOk(s.db, s.remote, me);
    SettleKeeps(s, me);
    var (db, out) := Settle(s, me);
    PcStep(s.(db := db), p, AfterSettle(me.pc, out));
  }

  lemma WriteKeeps(s: Sys, x: Oid)
    requires SysInv(s)
    ensures SysInv(Write(s, x))
  {
  }

  lemma MoveStepKeeps(s: Sys, cur: Current)
    requires SysInv(s)
    ensures SysInv(s.(db := Move(s.db, cur)))
  {
    MoveKeeps(s.db, cur);
    MoveGrows(s.db, cur, s.remote, s.desired);
    DbKeeps(s, Move(s.db, cur));
  }

  lemma MoveGrows(db: Db, cur: Current, remote: Option<Oid>, desired: Oid)
    requires Inv(db) && LastAgrees(db.claims, remote, desired)
    ensures Grows(db, Move(db, cur)) && LastAgrees(Move(db, cur).claims, remote, desired)
  {
  }

  lemma BrokerKeeps(s: Sys, to: E.EffectState)
    requires SysInv(s) && s.db.intent.Some?
    ensures SysInv(s.(db := s.db.(intent := Some(BrokerMove(s.db.intent.value, to)))))
  {
  }

  lemma StepKeeps(s: Sys, step: Step)
    requires SysInv(s)
    ensures SysInv(Do(s, step))
  {
    match step
    case Land => if s.inflight > 0 { WriteKeeps(s.(inflight := s.inflight - 1), s.desired); }
    case ForeignCreate(x) => WriteKeeps(s, x);
    case MoveStep(cur) => MoveStepKeeps(s, cur);
    case BrokerStep(to) => if s.db.intent.Some? { BrokerKeeps(s, to); }
    case Start(p, a) =>
    case Lose =>
    case OriginalPush =>
    case _ => if step.p in s.procs { ProcStepKeeps(s, step.p, step); }
  }

  lemma {:induction false} RunKeeps(s: Sys, steps: seq<Step>)
    requires SysInv(s)
    ensures SysInv(Run(s, steps))
    decreases |steps|
  {
    if steps != [] {
      StepKeeps(s, steps[0]);
      RunKeeps(Do(s, steps[0]), steps[1..]);
    }
  }
}
