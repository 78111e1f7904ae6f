/** When a recovery push can leave: what came before it in its own executor,
    when its owner still owns the claim, and how often the one reservation can
    be pushed. */
module RecoveryPushes {
  import opened Bytes
  import opened EffectRecovery
  import opened RecoveryInvariants
  import opened RecoveryRuns
  import opened RecoveryTheorems

  // ---- what an executor holds -------------------------------------------------

  /** The claim in an executor's hands was an active row of its authority. */
  ghost predicate HeldBy(a: Authority, c: Claim) { c.authority == a && Active(c.disposition) && RowOk(c) }

  ghost predicate Held(me: Proc) {
    !me.pc.Idle? ==>
      HeldBy(me.authority, me.pc.claim) && (me.pc.ToRetry? ==> me.pc.claim.disposition.RetryReserved?)
  }

  ghost predicate AllHeld(procs: map<nat, Proc>) { forall p | p in procs :: Held(procs[p]) }

  lemma ClaimHeld(db: Db, a: Authority)
    requires Inv(db)
    ensures Held(Proc(a, AfterClaim(Admit(db, a).1, a)))
  {
    if AfterClaim(Admit(db, a).1, a).HasClaim? {
      AdmittedHoldsTheLease(db, a);
      AdmitKeeps(db, a);
    }
  }

  lemma ProposeHeld(db: Db, c: Claim, r: Request)
    requires Inv(db) && Propose(db, c, r).1.Ok? && Active(r.to)
    ensures var now := Propose(db, c, r).1.value;
            HeldBy(r.authority, now) && now.disposition == r.to && now.generation == r.generation
  {
  }

  /** A readback that leads to the retry keeps the claim's generation. */
  lemma SettleHeld(s: Sys, me: Proc)
    requires Inv(s.db) && Held(me) && (me.pc.Read? || me.pc.ReadFailed?)
    ensures var pc := AfterSettle(me.pc, Settle(s, me).1);
            Held(me.(pc := pc)) && (pc.ToRetry? ==> pc.claim.generation == me.pc.claim.generation)
  {
    var r := SettleRequest(s, me);
    if AfterSettle(me.pc, Settle(s, me).1).ToRetry? && r.Some? {
      ApplyAnswersTheOwner(s.db, r.value, me.authority);
      ProposeHeld(s.db, me.pc.claim, r.value);
    }
  }

  /** An executor about to retry is cleared exactly when the last row is its
      own claim, current, with the retry reserved; and then it holds that row. */
  lemma ClearIff(s: Sys, me: Proc)
    requires Inv(s.db) && Held(me) && me.pc.ToRetry?
    ensures Clear(s, me).Cleared? <==>
      && s.db.claims != [] && Last(s.db.claims).generation == me.pc.claim.generation
      && Last(s.db.claims).authority == me.authority && ClaimIsCurrent(Last(s.db.claims), s.db.cur)
      && Last(s.db.claims).disposition.RetryReserved?
    ensures Clear(s, me).Cleared? ==> Clear(s, me).claim == Last(s.db.claims) && Held(me.(pc := Clear(s, me)))
  {
  }

  lemma ReplyHeld(db: Db, a: Authority, c: Claim, ok: bool)
    requires Inv(db)
    ensures Held(Proc(a, AfterReply(Propose(db, c, UnknownAfterPush(c, a)).1, ok)))
  {
  }

  lemma ProcHeld(s: Sys, p: nat, step: Step)
    requires Inv(s.db) && p in s.procs && Held(s.procs[p])
    ensures p in ProcStep(s, p, step).procs && Held(ProcStep(s, p, step).procs[p])
  {
    var me := s.procs[p];
    match me.pc
    case Idle => ClaimHeld(s.db, me.authority);
    case HasClaim(_) =>
    case Read(_, _) => SettleHeld(s, me);
    case ReadFailed(_) => SettleHeld(s, me);
    case ToRetry(_) => ClearIff(s, me);
    case Cleared(_) =>
    case Sent(c) => if step.ReplyStep? { ReplyHeld(s.db, me.authority, c, step.ok); }
  }

  /** A step of executor p. */
  predicate Mine(step: Step, p: nat) {
    && (step.Start? || step.ClaimStep? || step.ReadStep? || step.SettleStep? || step.ClearStep? || step.PushStep?
        || step.ReplyStep?)
    && step.p == p
  }

  lemma NotMine(s: Sys, step: Step, p: nat)
    requires p in Do(s, step).procs && !Mine(step, p)
    ensures p in s.procs && Do(s, step).procs[p] == s.procs[p]
  {
  }

  lemma StepHeld(s: Sys, step: Step)
    requires Inv(s.db) && AllHeld(s.procs)
    ensures AllHeld(Do(s, step).procs)
  {
    forall p | p in Do(s, step).procs
      ensures Held(Do(s, step).procs[p])
    {
      if !Mine(step, p) { NotMine(s, step, p); } else if p in s.procs { ProcHeld(s, p, step); }
    }
  }

  lemma {:induction false} RunHeld(s: Sys, steps: seq<Step>)
    requires SysInv(s) && AllHeld(s.procs)
    ensures SysInv(Run(s, steps)) && AllHeld(Run(s, steps).procs)
    decreases |steps|
  {
    if steps != [] {
      StepKeeps(s, steps[0]);
      StepHeld(s, steps[0]);
      RunHeld(Do(s, steps[0]), steps[1..]);
    }
  }

  /** Clearance in every reachable state. */
  lemma ClearanceIsExact(s: Sys, steps: seq<Step>, p: nat)
    requires Init(s)
    requires p in Run(s, steps).procs && Run(s, steps).procs[p].pc.ToRetry?
    ensures var t := Run(s, steps);
      var me, cs := t.procs[p], t.db.claims;
      && (Clear(t, me).Cleared? <==>
            && cs != [] && Last(cs).generation == me.pc.claim.generation && Last(cs).authority == me.authority
            && ClaimIsCurrent(Last(cs), t.db.cur) && Last(cs).disposition.RetryReserved?)
      && (Clear(t, me).Cleared? ==> Clear(t, me).claim == Last(cs))
  {
    RunHeld(s, steps);
    ClearIff(Run(s, steps), Run(s, steps).procs[p]);
  }

  // ---- what came before a push ------------------------------------------------

  /** Between its absent readback and its push. */
  predicate OnTheWay(pc: Pc) { (pc.Read? && pc.seen == None) || pc.ToRetry? || pc.Cleared? }

  /** Step i is this executor's own successful readback of an absent ref, made
      under authority a with claim generation g in hand. */
  ghost predicate AbsentRead(s: Sys, steps: seq<Step>, p: nat, i: nat, a: Authority, g: nat) {
    && i < |steps| && steps[i] == ReadStep(p, true)
    && var u := Run(s, steps[..i]);
    && u.remote == None && p in u.procs && u.procs[p].authority == a
    && u.procs[p].pc.HasClaim? && u.procs[p].pc.claim.generation == g
  }

  /** Step j cleared this executor on claim c, then the last row, current and
      reserved under its authority. */
  ghost predicate ClearedAt(s: Sys, steps: seq<Step>, p: nat, j: nat, a: Authority, c: Claim) {
    && j < |steps| && steps[j] == ClearStep(p)
    && var u := Run(s, steps[..j]);
    && p in u.procs && u.procs[p].authority == a && u.procs[p].pc.ToRetry? && Clear(u, u.procs[p]) == Cleared(c)
    && u.db.claims != [] && c == Last(u.db.claims) && ClaimIsCurrent(c, u.db.cur)
    && c.disposition.RetryReserved? && c.retries == MAX_CREATE_RECOVERY_RETRIES && c.authority == a
  }

  ghost predicate NoStart(steps: seq<Step>, from: nat, p: nat) {
    forall k | from <= k < |steps| :: !(steps[k].Start? && steps[k].p == p)
  }

  ghost predicate ReadSince(s: Sys, steps: seq<Step>, p: nat, a: Authority, g: nat) {
    exists i: nat :: AbsentRead(s, steps, p, i, a, g) && NoStart(steps, i, p)
  }

  ghost predicate ClearedSince(s: Sys, steps: seq<Step>, p: nat, a: Authority, c: Claim) {
    exists j: nat :: ClearedAt(s, steps, p, j, a, c) && NoStart(steps, j, p)
  }

  lemma OwnCases(s: Sys, step: Step, p: nat)
    requires Inv(s.db) && p in s.procs && Held(s.procs[p]) && Mine(step, p) && !step.Start?
    requires OnTheWay(Do(s, step).procs[p].pc)
    ensures var me, now := s.procs[p], Do(s, step).procs[p];
      && me.authority == now.authority && !me.pc.Idle? && me.pc.claim.generation == now.pc.claim.generation
      && (OnTheWay(me.pc) || (me.pc.HasClaim? && step == ReadStep(p, true) && s.remote == None))
  {
    var me := s.procs[p];
    if me.pc.Read? || me.pc.ReadFailed? { SettleHeld(s, me); }
  }

  /** How an executor comes to be on the way: it was before, with the same
      claim, or this step is its absent readback. */
  lemma OnTheWayCases(s: Sys, step: Step, p: nat)
    requires Inv(s.db) && AllHeld(s.procs)
    requires p in Do(s, step).procs && OnTheWay(Do(s, step).procs[p].pc)
    ensures var now := Do(s, step).procs[p];
      && p in s.procs && s.procs[p].authority == now.authority && !s.procs[p].pc.Idle?
      && s.procs[p].pc.claim.generation == now.pc.claim.generation
      && !(step.Start? && step.p == p)
      && (OnTheWay(s.procs[p].pc) || (s.procs[p].pc.HasClaim? && step == ReadStep(p, true) && s.remote == None))
  {
    if !Mine(step, p) { NotMine(s, step, p); } else if p in s.procs && !step.Start? { OwnCases(s, step, p); }
  }

  lemma ClearedCases(s: Sys, step: Step, p: nat)
    requires p in Do(s, step).procs && Do(s, step).procs[p].pc.Cleared?
    ensures var now := Do(s, step).procs[p];
      && p in s.procs && s.procs[p].authority == now.authority && !(step.Start? && step.p == p)
      && (s.procs[p].pc == now.pc || (step == ClearStep(p) && s.procs[p].pc.ToRetry? && Clear(s, s.procs[p]) == now.pc))
  {
  }

  lemma OnTheWayAt(s: Sys, steps: seq<Step>, p: nat)
    requires SysInv(s) && AllHeld(s.procs) && steps != []
    requires p in Run(s, steps).procs && OnTheWay(Run(s, steps).procs[p].pc)
    ensures var mid, last, now := Run(s, steps[..|steps| - 1]), steps[|steps| - 1], Run(s, steps).procs[p];
      && p in mid.procs && mid.procs[p].authority == now.authority && !mid.procs[p].pc.Idle?
      && mid.procs[p].pc.claim.generation == now.pc.claim.generation
      && !(last.Start? && last.p == p)
      && (OnTheWay(mid.procs[p].pc) || (mid.procs[p].pc.HasClaim? && last == ReadStep(p, true) && mid.remote == None))
  {
    RunLast(s, steps);
    RunHeld(s, steps[..|steps| - 1]);
    OnTheWayCases(Run(s, steps[..|steps| - 1]), steps[|steps| - 1], p);
  }

  lemma ClearedWhen(s: Sys, steps: seq<Step>, p: nat)
    requires SysInv(s) && AllHeld(s.procs) && steps != []
    requires p in Run(s, steps).procs && Run(s, steps).procs[p].pc.Cleared?
    ensures var mid, last, now := Run(s, steps[..|steps| - 1]), steps[|steps| - 1], Run(s, steps).procs[p];
      && p in mid.procs && mid.procs[p].authority == now.authority && !(last.Start? && last.p == p)
      && (mid.procs[p].pc == now.pc
          || ClearedAt(s, steps, p, |steps| - 1, now.authority, now.pc.claim))
  {
    var mid := Run(s, steps[..|steps| - 1]);
    RunLast(s, steps);
    RunHeld(s, steps[..|steps| - 1]);
    ClearedCases(mid, steps[|steps| - 1], p);
    if mid.procs[p].pc.ToRetry? { ClearIff(mid, mid.procs[p]); }
  }

  lemma {:induction false} TraceRead(s: Sys, steps: seq<Step>, p: nat)
    requires SysInv(s) && s.procs == map[]
    requires p in Run(s, steps).procs && OnTheWay(Run(s, steps).procs[p].pc)
    ensures var me := Run(s, steps).procs[p]; ReadSince(s, steps, p, me.authority, me.pc.claim.generation)
    decreases |steps|
  {
    if steps != [] {
      var front, last := steps[..|steps| - 1], steps[|steps| - 1];
      OnTheWayAt(s, steps, p);
      var me := Run(s, front).procs[p];
      assert steps == front + [last];
      if OnTheWay(me.pc) {
        TraceRead(s, front, p);
        ReadStays(s, front, last, p, me.authority, me.pc.claim.generation);
      } else {
        assert AbsentRead(s, steps, p, |front|, me.authority, me.pc.claim.generation);
      }
    }
  }

  lemma ReadStays(s: Sys, front: seq<Step>, last: Step, p: nat, a: Authority, g: nat)
    requires ReadSince(s, front, p, a, g) && !(last.Start? && last.p == p)
    ensures ReadSince(s, front + [last], p, a, g)
  {
    var i: nat :| AbsentRead(s, front, p, i, a, g) && NoStart(front, i, p);
    assert (front + [last])[..i] == front[..i];
    assert AbsentRead(s, front + [last], p, i, a, g);
  }

  lemma ClearedStays(s: Sys, front: seq<Step>, last: Step, p: nat, a: Authority, c: Claim)
    requires ClearedSince(s, front, p, a, c) && !(last.Start? && last.p == p)
    ensures ClearedSince(s, front + [last], p, a, c)
  {
    var j: nat :| ClearedAt(s, front, p, j, a, c) && NoStart(front, j, p);
    assert (front + [last])[..j] == front[..j];
    assert ClearedAt(s, front + [last], p, j, a, c);
  }

  lemma {:induction false} TraceClear(s: Sys, steps: seq<Step>, p: nat)
    requires SysInv(s) && s.procs == map[]
    requires p in Run(s, steps).procs && Run(s, steps).procs[p].pc.Cleared?
    ensures var me := Run(s, steps).procs[p]; ClearedSince(s, steps, p, me.authority, me.pc.claim)
    decreases |steps|
  {
    if steps != [] {
      var front, last, me := steps[..|steps| - 1], steps[|steps| - 1], Run(s, steps).procs[p];
      ClearedWhen(s, steps, p);
      assert steps == front + [last];
      if Run(s, front).procs[p].pc == me.pc {
        TraceClear(s, front, p);
        ClearedStays(s, front, last, p, me.authority, me.pc.claim);
      }
    }
  }

  /** The push that executor p can send now, and the two steps behind it. */
  ghost predicate Justified(s: Sys, steps: seq<Step>, p: nat, i: nat, j: nat, a: Authority, c: Claim) {
    && i < j && AbsentRead(s, steps, p, i, a, c.generation) && ClearedAt(s, steps, p, j, a, c) && NoStart(steps, i, p)
    && p in Run(s, steps).procs && Run(s, steps).procs[p] == Proc(a, Cleared(c))
  }

  lemma ReadBeforeClear(s: Sys, steps: seq<Step>, p: nat, j: nat, a: Authority, c: Claim) returns (i: nat)
    requires SysInv(s) && s.procs == map[] && ClearedAt(s, steps, p, j, a, c) && NoStart(steps, j, p)
    ensures i < j && AbsentRead(s, steps, p, i, a, c.generation) && NoStart(steps, i, p)
  {
    var front := steps[..j];
    RunHeld(s, front);
    ClearIff(Run(s, front), Run(s, front).procs[p]);
    TraceRead(s, front, p);
    i :| AbsentRead(s, front, p, i, a, c.generation) && NoStart(front, i, p);
    assert front[..i] == steps[..i];
    forall k | i <= k < |steps|
      ensures !(steps[k].Start? && steps[k].p == p)
    {
      if k < j { assert steps[k] == front[k]; }
    }
  }

  /** Every push follows, in one incarnation of its own executor, first an
      absent readback of the ref with this claim in hand, then the clearance
      that found this claim to be the last row, current and reserved. */
  lemma PushFollowsItsReadback(s: Sys, steps: seq<Step>, p: nat)
    requires Init(s) && Do(Run(s, steps), PushStep(p)).pushes != Run(s, steps).pushes
    ensures exists i: nat, j: nat, a, c :: Justified(s, steps, p, i, j, a, c)
  {
    PushIsCleared(Run(s, steps), p);
    var me := Run(s, steps).procs[p];
    TraceClear(s, steps, p);
    var j: nat :| ClearedAt(s, steps, p, j, me.authority, me.pc.claim) && NoStart(steps, j, p);
    var i := ReadBeforeClear(s, steps, p, j, me.authority, me.pc.claim);
    assert Justified(s, steps, p, i, j, me.authority, me.pc.claim);
  }

  lemma PushIsCleared(s: Sys, p: nat)
    requires Do(s, PushStep(p)).pushes != s.pushes
    ensures p in s.procs && s.procs[p].pc.Cleared?
  {
  }

  // ---- whether the owner still owns the claim -------------------------------------

  /** A weight that every write to the claim rows raises. */
  function Weight(cs: seq<Claim>): nat {
    if cs == [] then 0
    else 6 * |cs| + if Last(cs).disposition.Invalidated? then 5 else 4 - Rank(Last(cs))
  }

  ghost predicate Still(cs: seq<Claim>, cs': seq<Claim>) { cs' == cs || Weight(cs') > Weight(cs) }

  lemma VacateWeighs(db: Db)
    requires Inv(db)
    ensures Still(db.claims, Vacate(db).claims) && |Vacate(db).claims| == |db.claims|
  {
  }

  lemma AdmitWeighs(db: Db, a: Authority)
    requires Inv(db)
    ensures Still(db.claims, Admit(db, a).0.claims)
  {
    AdmitCases(db, a);
    VacateKeeps(db);
    VacateWeighs(db);
    if Admit(db, a).0 != db { IssueWeighs(Vacate(db), db.intent.value, a); }
  }

  lemma IssueWeighs(db: Db, i: Intent, a: Authority)
    requires Inv(db) && db.intent == Some(i) && Issue(db, i, a).Ok?
    requires forall k | 0 <= k < |db.claims| :: !Active(db.claims[k].disposition)
    ensures Still(db.claims, Issue(db, i, a).value.0.claims)
  {
  }

  lemma ApplyWeighs(db: Db, r: Request, a: Authority)
    requires Inv(db)
    ensures Still(db.claims, Apply(db, r, a).0.claims)
  {
  }

  lemma StepWeighs(db: Db, k: DbWrite)
    requires Inv(db)
    ensures Still(db.claims, DbAfter(db, k).claims)
  {
    match k
    case Same =>
    case ByClaim(a) => AdmitWeighs(db, a);
    case ByRequest(r) => ApplyWeighs(db, r, r.authority);
    case ByMove(_) => VacateWeighs(db);
    case ByBroker(_) =>
  }

  ghost predicate Untouched(s: Sys, steps: seq<Step>) {
    forall k | 0 <= k <= |steps| :: Run(s, steps[..k]).db.claims == s.db.claims
  }

  /** A run that ends at the weight it began with wrote no claim row. */
  lemma {:induction false} WeightTells(s: Sys, steps: seq<Step>)
    requires SysInv(s)
    ensures Weight(Run(s, steps).db.claims) >= Weight(s.db.claims)
    ensures Weight(Run(s, steps).db.claims) == Weight(s.db.claims) ==> Untouched(s, steps)
    decreases |steps|
  {
    if steps != [] {
      var mid := Do(s, steps[0]);
      DbOf(s, steps[0]);
      StepWeighs(s.db, WriteOf(s, steps[0]));
      StepKeeps(s, steps[0]);
      WeightTells(mid, steps[1..]);
      if Weight(Run(s, steps).db.claims) == Weight(s.db.claims) {
        forall k | 0 <= k <= |steps|
          ensures Run(s, steps[..k]).db.claims == s.db.claims
        {
          if k > 0 {
            assert steps[..k][1..] == steps[1..][..k - 1];
            assert Run(mid, steps[1..][..k - 1]).db.claims == mid.db.claims;
          }
        }
      }
    }
  }

  lemma StillRead(u: Sys, rest: seq<Step>, c: Claim)
    requires SysInv(u) && u.db.claims != [] && c == Last(u.db.claims) && Active(c.disposition)
    ensures Readback(Run(u, rest).db, c.authority) == Ok(Some(c)) <==>
      Untouched(u, rest) && ClaimIsCurrent(c, Run(u, rest).db.cur)
  {
    var t := Run(u, rest);
    RunKeeps(u, rest);
    ReadbackIsExact(t.db, c.authority, c);
    WeightTells(u, rest);
    assert rest[..|rest|] == rest;
    if Readback(t.db, c.authority) == Ok(Some(c)) {
      assert |t.db.claims| == c.generation == |u.db.claims|;
    }
  }

  /** At the push, the cleared claim would still be read back if and only if no
      step since the clearance wrote a claim row and the authority is current. */
  lemma StillOwnedIff(s: Sys, steps: seq<Step>, p: nat, j: nat, a: Authority, c: Claim)
    requires Init(s) && ClearedAt(s, steps, p, j, a, c)
    ensures Readback(Run(s, steps).db, a) == Ok(Some(c)) <==>
      Untouched(Run(s, steps[..j]), steps[j..]) && ClaimIsCurrent(c, Run(s, steps).db.cur)
  {
    assert steps == steps[..j] + steps[j..];
    RunConcat(s, steps[..j], steps[j..]);
    RunKeeps(s, steps[..j]);
    StillRead(Run(s, steps[..j]), steps[j..], c);
  }

  // ---- how often the reservation can be pushed --------------------------------------

  predicate Clears(s: Sys, step: Step) {
    step.ClearStep? && step.p in s.procs && s.procs[step.p].pc.ToRetry? && Clear(s, s.procs[step.p]).Cleared?
  }

  function ClearedProcs(s: Sys): set<nat> { set p | p in s.procs && s.procs[p].pc.Cleared? }

  /** The steps of a run that cleared an executor. */
  ghost function ClearTimes(s: Sys, steps: seq<Step>): set<nat> {
    set j | 0 <= j < |steps| && Clears(Run(s, steps[..j]), steps[j])
  }

  /** Each push uses up one cleared executor. */
  lemma PushUsesClearance(s: Sys, step: Step)
    ensures var t := Do(s, step);
      |t.pushes| + |ClearedProcs(t)| <= |s.pushes| + |ClearedProcs(s)| + if Clears(s, step) then 1 else 0
  {
    var t := Do(s, step);
    var was, now := ClearedProcs(s), ClearedProcs(t);
    forall q | q in now
      ensures q in was || (Clears(s, step) && q == step.p)
    {
      ClearedCases(s, step, q);
    }
    if t.pushes != s.pushes {
      PushLeaves(s, step);
      assert now <= was - {step.p};
      SubsetSize(now, was - {step.p});
    } else if Clears(s, step) {
      assert now <= was + {step.p};
      SubsetSize(now, was + {step.p});
    } else {
      SubsetSize(now, was);
    }
  }

  lemma PushLeaves(s: Sys, step: Step)
    requires Do(s, step).pushes != s.pushes
    ensures step.PushStep? && |Do(s, step).pushes| == |s.pushes| + 1 && !Clears(s, step)
    ensures step.p in ClearedProcs(s) && step.p !in ClearedProcs(Do(s, step))
  {
  }

  lemma ClearTimesLast(s: Sys, steps: seq<Step>)
    requires steps != []
    ensures var n := |steps| - 1;
      ClearTimes(s, steps) == ClearTimes(s, steps[..n]) + if Clears(Run(s, steps[..n]), steps[n]) then {n} else {}
  {
    var front := steps[..|steps| - 1];
    assert forall j | 0 <= j <= |front| :: steps[..j] == front[..j];
    assert forall j | 0 <= j < |front| :: steps[j] == front[j];
  }

  lemma PushUsesClearanceAt(s: Sys, steps: seq<Step>)
    requires steps != []
    ensures var n := |steps| - 1;
      var mid, t := Run(s, steps[..n]), Run(s, steps);
      |t.pushes| + |ClearedProcs(t)| <= |mid.pushes| + |ClearedProcs(mid)| + if Clears(mid, steps[n]) then 1 else 0
  {
    RunLast(s, steps);
    PushUsesClearance(Run(s, steps[..|steps| - 1]), steps[|steps| - 1]);
  }

  lemma {:induction false} PushesNeedClearances(s: Sys, steps: seq<Step>)
    ensures var t := Run(s, steps);
      |t.pushes| + |ClearedProcs(t)| <= |s.pushes| + |ClearedProcs(s)| + |ClearTimes(s, steps)|
    decreases |steps|
  {
    if steps != [] {
      PushesNeedClearances(s, steps[..|steps| - 1]);
      PushUsesClearanceAt(s, steps);
      ClearTimesLast(s, steps);
    }
  }

  /** The retry budget is spent and the reserved phase is over. */
  ghost predicate Over(cs: seq<Claim>) { cs != [] && Last(cs).retries == 1 && !Phase(Last(cs)).RetryReserved? }

  lemma VacateOver(db: Db)
    requires Inv(db) && Over(db.claims)
    ensures Over(Vacate(db).claims)
  {
  }

  lemma IssueOver(db: Db, i: Intent, a: Authority)
    requires Inv(db) && Over(db.claims) && db.intent == Some(i) && Issue(db, i, a).Ok?
    requires forall k | 0 <= k < |db.claims| :: !Active(db.claims[k].disposition)
    ensures Over(Issue(db, i, a).value.0.claims)
  {
    if Issue(db, i, a).value.1.Some? { NewRow(db, i, a); }
  }

  lemma AdmitOver(db: Db, a: Authority)
    requires Inv(db) && Over(db.claims)
    ensures Over(Admit(db, a).0.claims)
  {
    AdmitCases(db, a);
    VacateKeeps(db);
    VacateOver(db);
    if Admit(db, a).0 != db { IssueOver(Vacate(db), db.intent.value, a); }
  }

  lemma ApplyOver(db: Db, r: Request, a: Authority)
    requires Inv(db) && Over(db.claims)
    ensures Over(Apply(db, r, a).0.claims)
  {
  }

  lemma StepOver(db: Db, k: DbWrite)
    requires Inv(db) && Over(db.claims)
    ensures Over(DbAfter(db, k).claims)
  {
    match k
    case Same =>
    case ByClaim(a) => AdmitOver(db, a);
    case ByRequest(r) => ApplyOver(db, r, r.authority);
    case ByMove(_) => VacateOver(db);
    case ByBroker(_) =>
  }

  /** Nobody is cleared outside the reserved phase. */
  lemma ClearsOnlyReserved(s: Sys, step: Step)
    requires Inv(s.db) && AllHeld(s.procs) && Clears(s, step)
    ensures s.db.claims != [] && Phase(Last(s.db.claims)).RetryReserved? && Reservations(s.db.log) == 1
  {
  }

  lemma {:induction false} OverForGood(s: Sys, steps: seq<Step>)
    requires SysInv(s) && AllHeld(s.procs) && Over(s.db.claims)
    ensures Over(Run(s, steps).db.claims) && SysInv(Run(s, steps)) && AllHeld(Run(s, steps).procs)
    decreases |steps|
  {
    if steps != [] {
      StepKeeps(s, steps[0]);
      StepHeld(s, steps[0]);
      DbOf(s, steps[0]);
      StepOver(s.db, WriteOf(s, steps[0]));
      OverForGood(Do(s, steps[0]), steps[1..]);
    }
  }

  /** Pushes never outnumber clearances, and every clearance falls inside the
      reserved phase that the one reservation opened. So a second push needs a
      second clearance while the row is still reserved. */
  lemma SecondPushNeedsSecondClearance(s: Sys, steps: seq<Step>)
    requires Init(s)
    ensures |Run(s, steps).pushes| <= |ClearTimes(s, steps)|
    ensures forall j | j in ClearTimes(s, steps) ::
      var u := Run(s, steps[..j]);
      u.db.claims != [] && Phase(Last(u.db.claims)).RetryReserved? && Reservations(u.db.log) == 1
  {
    PushesNeedClearances(s, steps);
    assert ClearedProcs(s) == {};
    forall j | j in ClearTimes(s, steps)
      ensures var u := Run(s, steps[..j]);
        u.db.claims != [] && Phase(Last(u.db.claims)).RetryReserved? && Reservations(u.db.log) == 1
    {
      RunHeld(s, steps[..j]);
      ClearsOnlyReserved(Run(s, steps[..j]), steps[j]);
    }
  }

  /** Once the budget is spent and the reserved phase is over, no continuation
      clears any executor: the pushes still to come are at most the executors
      already cleared. */
  lemma NoPushAfterTheReservedPhase(s: Sys, before: seq<Step>, after: seq<Step>)
    requires Init(s) && Over(Run(s, before).db.claims)
    ensures var u := Run(s, before);
      && Over(Run(s, before + after).db.claims)
      && ClearTimes(u, after) == {}
      && |Run(s, before + after).pushes| <= |u.pushes| + |ClearedProcs(u)|
  {
    var u := Run(s, before);
    RunHeld(s, before);
    RunConcat(s, before, after);
    OverForGood(u, after);
    forall j | j in ClearTimes(u, after)
      ensures false
    {
      OverForGood(u, after[..j]);
      ClearsOnlyReserved(Run(u, after[..j]), after[j]);
    }
    PushesNeedClearances(u, after);
  }

  // ---- the other way: when a push can still come ------------------------------------

  /** An incarnation of executor p that claims, reads, clears and pushes. */
  function Retry(p: nat, a: Authority): seq<Step> {
    [Start(p, a), ClaimStep(p), ReadStep(p, true), SettleStep(p), ClearStep(p)]
  }

  /** The last row is reserved and current, and the intent row agrees with it. */
  ghost predicate Retriable(db: Db) {
    && db.claims != [] && Last(db.claims).disposition.RetryReserved? && ClaimIsCurrent(Last(db.claims), db.cur)
    && db.intent.Some? && Synced(Last(db.claims), db.intent.value) && ClaimValid(Last(db.claims), db.intent.value)
  }

  lemma ReclaimsItsOwn(db: Db)
    requires Inv(db) && Retriable(db)
    ensures Admit(db, Last(db.claims).authority) == (db, Ok(Some(Last(db.claims))))
  {
    OnlyLastIsActive(db.claims);
  }

  /** The system with executor p at pc under the last row's authority. */
  function Put(t: Sys, p: nat, pc: Pc): Sys
    requires t.db.claims != []
  {
    t.(procs := t.procs[p := Proc(Last(t.db.claims).authority, pc)])
  }

  lemma RetryReads(t: Sys, p: nat)
    requires Inv(t.db) && Retriable(t.db) && t.remote == None
    ensures var c := Last(t.db.claims);
      && Do(t, Start(p, c.authority)) == Put(t, p, Idle)
      && Do(Put(t, p, Idle), ClaimStep(p)) == Put(t, p, HasClaim(c))
      && Do(Put(t, p, HasClaim(c)), ReadStep(p, true)) == Put(t, p, Read(c, None))
  {
    var c := Last(t.db.claims);
    ReclaimsItsOwn(t.db);
    assert Put(t, p, Idle).procs[p := Proc(c.authority, HasClaim(c))] == Put(t, p, HasClaim(c)).procs;
    assert Put(t, p, HasClaim(c)).procs[p := Proc(c.authority, Read(c, None))] == Put(t, p, Read(c, None)).procs;
  }

  lemma RetryClears(t: Sys, p: nat)
    requires Inv(t.db) && Retriable(t.db) && t.remote == None
    ensures var c := Last(t.db.claims);
      && Do(Put(t, p, Read(c, None)), SettleStep(p)) == Put(t, p, ToRetry(c))
      && Do(Put(t, p, ToRetry(c)), ClearStep(p)) == Put(t, p, Cleared(c))
  {
    var c := Last(t.db.claims);
    assert RowOk(c);
    ClearIff(Put(t, p, ToRetry(c)), Proc(c.authority, ToRetry(c)));
    assert Put(t, p, Read(c, None)).procs[p := Proc(c.authority, ToRetry(c))] == Put(t, p, ToRetry(c)).procs;
    assert Put(t, p, ToRetry(c)).procs[p := Proc(c.authority, Cleared(c))] == Put(t, p, Cleared(c)).procs;
  }

  lemma RetryRun(t: Sys, p: nat)
    requires Inv(t.db) && Retriable(t.db) && t.remote == None
    ensures Run(t, Retry(p, Last(t.db.claims).authority)) == Put(t, p, Cleared(Last(t.db.claims)))
  {
    RunFive(t, Retry(p, Last(t.db.claims).authority));
    RetryReads(t, p);
    RetryClears(t, p);
  }

  lemma PushSent(t: Sys, p: nat, c: Claim)
    requires t.db.claims != []
    ensures Do(Put(t, p, Cleared(c)), PushStep(p)).pushes == t.pushes + [c.generation]
  {
  }

  /** In the reserved phase a push can come: from every reachable state whose
      last row is reserved, current and in step with its intent while the ref is
      absent, one incarnation of any executor is cleared and pushes. */
  lemma ReservedPhaseCanPush(s: Sys, before: seq<Step>, p: nat)
    requires Init(s) && Retriable(Run(s, before).db) && Run(s, before).remote == None
    ensures var t := Run(s, before);
      var u := Run(t, Retry(p, Last(t.db.claims).authority));
      && u == Put(t, p, Cleared(Last(t.db.claims)))
      && Do(u, PushStep(p)).pushes == t.pushes + [Last(t.db.claims).generation]
  {
    RunKeeps(s, before);
    var t := Run(s, before);
    RetryRun(t, p);
    PushSent(t, p, Last(t.db.claims));
  }
}
