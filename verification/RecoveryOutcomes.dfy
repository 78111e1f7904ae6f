/** Recovery comes to an end: from every reachable state an executor whose
    authority is admitted brings the intent to the verdict the ref calls for. */
module RecoveryOutcomes {
  import opened Bytes
  import E = EffectStates
  import opened EffectRecovery
  import opened RecoveryInvariants
  import opened RecoveryRuns
  import opened RecoveryTheorems
  import opened RecoveryPushes
  import opened RecoveryProgress

  ghost predicate Admitted(db: Db, a: Authority) { Owns(db, a) || MayClaim(db, a) }

  /** The system with executor p at pc under authority a, over these rows. */
  function With(t: Sys, p: nat, a: Authority, db: Db, pc: Pc): Sys {
    t.(db := db, procs := t.procs[p := Proc(a, pc)])
  }

  /** The last row and the intent have come to this. */
  ghost predicate Ends(db: Db, d: Disposition, state: E.EffectState) {
    db.claims != [] && Last(db.claims).disposition == d && db.intent.Some? && db.intent.value.state == state
  }

  /** The row an admitted authority gets to hold. */
  ghost function RowFor(db: Db, a: Authority): Claim
    requires Admitted(db, a)
  {
    if Owns(db, a) then Last(db.claims) else NextClaim(db, a)
  }

  // ---- single steps -------------------------------------------------------------

  lemma ClaimGoes(db: Db, a: Authority) returns (now: Db)
    requires Inv(db) && Admitted(db, a)
    ensures Inv(now) && Owns(now, a) && now.intent.value.desired == db.intent.value.desired
    ensures Admit(db, a) == (now, Ok(Some(Last(now.claims))))
    ensures Owns(db, a) ==> now == db
    ensures MayClaim(db, a) ==> Last(now.claims) == NextClaim(db, a)
  {
    AdmitsExactly(db, a);
    now := Admit(db, a).0;
    if MayClaim(db, a) { ClaimedIsOwner(db, a); }
  }

  lemma ReadDoes(t: Sys, p: nat, a: Authority, c: Claim, ok: bool)
    ensures Do(With(t, p, a, t.db, HasClaim(c)), ReadStep(p, ok)) ==
            With(t, p, a, t.db, if ok then Read(c, t.remote) else ReadFailed(c))
  {
  }

  /** A request built from the owner's own row goes through. */
  lemma ProposeDoes(db: Db, a: Authority, r: Request)
    requires Inv(db) && Owns(db, a) && r.to != Last(db.claims).disposition
    requires Speaks(Last(db.claims), r) && Admissible(Last(db.claims), r, db.intent.value.desired)
    ensures Propose(db, Last(db.claims), r) == (After(db, r), Ok(Resolved(Last(db.claims), r)))
  {
  }

  /** The request that a readback calls for. */
  ghost predicate CallsFor(c: Claim, pc: Pc, desired: Oid, r: Request) {
    && Speaks(c, r) && r.to != c.disposition && Admissible(c, r, desired)
    && (pc.Read? && pc.seen.Some? ==> r.to == if pc.seen.value == desired then Adopted else Orphaned)
    && (pc.Read? && pc.seen.None? ==> r.to == if c.retries == 0 then RetryReserved else Quarantined)
    && (pc.ReadFailed? ==> r.to == if c.disposition.ReadbackUnknown? then Quarantined else ReadbackUnknown)
  }

  /** Whatever was read, the executor asks for what it calls for; it asks for
      nothing only where the retry is already reserved and the ref absent. */
  lemma SettleAsks(t: Sys, me: Proc)
    requires Inv(t.db) && Desires(t.db, t.desired) && Owns(t.db, me.authority)
    requires (me.pc.Read? || me.pc.ReadFailed?) && me.pc.claim == Last(t.db.claims)
    ensures var c := Last(t.db.claims);
      if me.pc.Read? && me.pc.seen.None? && c.disposition.RetryReserved? then SettleRequest(t, me) == None
      else SettleRequest(t, me).Some? && CallsFor(c, me.pc, t.desired, SettleRequest(t, me).value)
  {
  }

  lemma SettleIs(t: Sys, a: Authority, pc: Pc, r: Request)
    requires Inv(t.db) && Desires(t.db, t.desired) && Owns(t.db, a)
    requires (pc.Read? || pc.ReadFailed?) && pc.claim == Last(t.db.claims) && SettleRequest(t, Proc(a, pc)) == Some(r)
    ensures CallsFor(Last(t.db.claims), pc, t.desired, r)
    ensures Settle(t, Proc(a, pc)) == (After(t.db, r), Ok(Resolved(Last(t.db.claims), r)))
  {
    SettleAsks(t, Proc(a, pc));
    ProposeDoes(t.db, a, r);
  }

  lemma SettleDoes(t: Sys, p: nat, a: Authority, pc: Pc, r: Request)
    requires Inv(t.db) && Desires(t.db, t.desired) && Owns(t.db, a)
    requires (pc.Read? || pc.ReadFailed?) && pc.claim == Last(t.db.claims) && SettleRequest(t, Proc(a, pc)) == Some(r)
    ensures Do(With(t, p, a, t.db, pc), SettleStep(p)) ==
            With(t, p, a, After(t.db, r), AfterSettle(pc, Ok(Resolved(Last(t.db.claims), r))))
  {
    SettleIs(With(t, p, a, t.db, pc), a, pc, r);
    var after := AfterSettle(pc, Ok(Resolved(Last(t.db.claims), r)));
    assert With(t, p, a, t.db, pc).procs[p := Proc(a, after)] == With(t, p, a, After(t.db, r), after).procs;
  }

  lemma ClearDoes(t: Sys, p: nat, a: Authority)
    requires Inv(t.db) && Owns(t.db, a) && Last(t.db.claims).disposition.RetryReserved?
    ensures var c := Last(t.db.claims);
      Do(With(t, p, a, t.db, ToRetry(c)), ClearStep(p)) == With(t, p, a, t.db, Cleared(c))
  {
  }

  /** What a push leaves once it has landed or is lost. */
  function Pushed(t: Sys, g: nat, lands: bool): Sys {
    var u := t.(pushes := t.pushes + [g]);
    if lands then Write(u, t.desired) else u
  }

  lemma PushDoes(t: Sys, p: nat, a: Authority, c: Claim, lands: bool)
    ensures Do(Do(With(t, p, a, t.db, Cleared(c)), PushStep(p)), if lands then Land else Lose) ==
            With(Pushed(t, c.generation, lands), p, a, t.db, Sent(c))
  {
  }

  /** However the push went, the claim is unknown until the next readback. */
  lemma ReplyDoes(t: Sys, p: nat, a: Authority, ok: bool)
    requires Inv(t.db) && Owns(t.db, a) && Last(t.db.claims).disposition.RetryReserved?
    ensures var c := Last(t.db.claims);
      var r := UnknownAfterPush(c, a);
      && Speaks(c, r) && Admissible(c, r, t.db.intent.value.desired)
      && Do(With(t, p, a, t.db, Sent(c)), ReplyStep(p, ok)) ==
         With(t, p, a, After(t.db, r), if ok then HasClaim(Resolved(c, r)) else Idle)
  {
    var c := Last(t.db.claims);
    var r := UnknownAfterPush(c, a);
    ProposeDoes(t.db, a, r);
    var pc := if ok then HasClaim(Resolved(c, r)) else Idle;
    assert With(t, p, a, t.db, Sent(c)).procs[p := Proc(a, pc)] == With(t, p, a, After(t.db, r), pc).procs;
  }

  // ---- one incarnation --------------------------------------------------------------

  /** Executor p starts under a, claims, reads the ref and acts on what it saw. */
  function Look(p: nat, a: Authority, ok: bool): seq<Step> {
    [Start(p, a), ClaimStep(p), ReadStep(p, ok), SettleStep(p)]
  }

  /** It is cleared and pushes, the push lands or is lost, and it looks again. */
  function PushAndLook(p: nat, lands: bool): seq<Step> {
    [ClearStep(p), PushStep(p), if lands then Land else Lose, ReplyStep(p, true), ReadStep(p, true), SettleStep(p)]
  }

  lemma RunFour(s: Sys, steps: seq<Step>)
    requires |steps| == 4
    ensures Run(s, steps) == Do(Do(Do(Do(s, steps[0]), steps[1]), steps[2]), steps[3])
  {
    RunLast(s, steps);
    RunLast(s, steps[..3]);
    RunLast(s, steps[..2]);
    RunLast(s, steps[..1]);
    assert steps[..3][..2] == steps[..2] && steps[..2][..1] == steps[..1] && steps[..1][..0] == [];
  }

  function Saw(c: Claim, remote: Option<Oid>, ok: bool): Pc { if ok then Read(c, remote) else ReadFailed(c) }

  lemma Opens(t: Sys, p: nat, a: Authority, ok: bool, now: Db)
    requires Owns(now, a) && Admit(t.db, a) == (now, Ok(Some(Last(now.claims))))
    ensures Do(Do(Do(t, Start(p, a)), ClaimStep(p)), ReadStep(p, ok)) ==
            With(t, p, a, now, Saw(Last(now.claims), t.remote, ok))
  {
  }

  /** An incarnation asks for what its readback calls for and gets it. */
  lemma LookDoes(t: Sys, p: nat, a: Authority, ok: bool) returns (now: Db, r: Request)
    requires Inv(t.db) && Desires(t.db, t.desired) && Admitted(t.db, a)
    requires ok && t.remote == None ==> !RowFor(t.db, a).disposition.RetryReserved?
    ensures Inv(now) && Owns(now, a) && Last(now.claims) == RowFor(t.db, a) && Desires(now, t.desired)
    ensures CallsFor(RowFor(t.db, a), Saw(RowFor(t.db, a), t.remote, ok), t.desired, r)
    ensures Run(t, Look(p, a, ok)) ==
      With(t, p, a, After(now, r), AfterSettle(Saw(RowFor(t.db, a), t.remote, ok), Ok(Resolved(RowFor(t.db, a), r))))
  {
    now := ClaimGoes(t.db, a);
    var u, pc := t.(db := now), Saw(Last(now.claims), t.remote, ok);
    RunFour(t, Look(p, a, ok));
    Opens(t, p, a, ok, now);
    SettleAsks(u, Proc(a, pc));
    r := SettleRequest(u, Proc(a, pc)).value;
    SettleDoes(u, p, a, pc, r);
  }

  // ---- the verdicts -------------------------------------------------------------------

  /** What is left to say of an absent ref once the one retry is spent. */
  predicate Spent(c: Claim) { c.disposition.ReadbackUnknown? && c.retries == 1 }

  lemma Concludes(db: Db, r: Request)
    requires Inv(db) && db.claims != [] && db.intent.Some?
    ensures r.to.Adopted? ==> Ends(After(db, r), Adopted, E.Committed)
    ensures r.to.Orphaned? ==> Ends(After(db, r), Orphaned, E.OrphanedRemote)
    ensures r.to.Quarantined? ==> Ends(After(db, r), Quarantined, E.Quarantined)
    ensures r.to.ReadbackUnknown? ==> Ends(After(db, r), ReadbackUnknown, E.OutcomeUnknown)
  {
  }

  /** A ref that holds something is decided in one incarnation: adopted if it is
      the desired value, orphaned if not, with the intent to match. */
  lemma ReadbackDecides(s: Sys, before: seq<Step>, p: nat, a: Authority)
    requires Init(s) && Admitted(Run(s, before).db, a) && Run(s, before).remote.Some?
    ensures var t := Run(s, before);
      var db := Run(t, Look(p, a, true)).db;
      if t.remote.value == s.desired then Ends(db, Adopted, E.Committed) else Ends(db, Orphaned, E.OrphanedRemote)
  {
    RunKeeps(s, before);
    DesiredIsFixed(s, before);
    var now, r := LookDoes(Run(s, before), p, a, true);
    Concludes(now, r);
  }

  /** An absent ref with the retry left, or reserved, brings the executor to its
      retry with the reserved row in hand. */
  lemma AbsenceReserves(t: Sys, p: nat, a: Authority) returns (db: Db)
    requires Inv(t.db) && Desires(t.db, t.desired) && Admitted(t.db, a) && t.remote == None && !Spent(RowFor(t.db, a))
    ensures Inv(db) && Owns(db, a) && Last(db.claims).disposition.RetryReserved? && Desires(db, t.desired)
    ensures Run(t, Look(p, a, true)) == With(t, p, a, db, ToRetry(Last(db.claims)))
  {
    if RowFor(t.db, a).disposition.RetryReserved? {
      db := Resumes(t, p, a);
    } else {
      var now, r := LookDoes(t, p, a, true);
      assert RowOk(Last(now.claims));
      OwnerStays(now, r, a);
      db := After(now, r);
    }
  }

  lemma ResumeDoes(t: Sys, p: nat, a: Authority)
    requires t.db.claims != [] && Last(t.db.claims).disposition.RetryReserved?
    ensures var c := Last(t.db.claims);
      Do(With(t, p, a, t.db, Read(c, None)), SettleStep(p)) == With(t, p, a, t.db, ToRetry(c))
  {
  }

  /** A row whose retry is already reserved needs no request. */
  lemma Resumes(t: Sys, p: nat, a: Authority) returns (db: Db)
    requires Inv(t.db) && Desires(t.db, t.desired) && Admitted(t.db, a) && t.remote == None
    requires RowFor(t.db, a).disposition.RetryReserved?
    ensures Inv(db) && Owns(db, a) && Last(db.claims).disposition.RetryReserved? && Desires(db, t.desired)
    ensures Run(t, Look(p, a, true)) == With(t, p, a, db, ToRetry(Last(db.claims)))
  {
    db := ClaimGoes(t.db, a);
    RunFour(t, Look(p, a, true));
    Opens(t, p, a, true, db);
    ResumeDoes(t.(db := db), p, a);
  }

  lemma RunSix(s: Sys, steps: seq<Step>)
    requires |steps| == 6
    ensures Run(s, steps) == Do(Do(Do(Do(Do(Do(s, steps[0]), steps[1]), steps[2]), steps[3]), steps[4]), steps[5])
  {
    RunLast(s, steps);
    RunFive(s, steps[..5]);
  }

  /** From there the push and the next readback decide: adopted if the push
      landed, quarantined if it was lost. */
  lemma PushDecides(t: Sys, p: nat, a: Authority, lands: bool)
    requires Inv(t.db) && Desires(t.db, t.desired) && Owns(t.db, a) && Last(t.db.claims).disposition.RetryReserved?
    requires t.remote == None
    ensures var u := Run(With(t, p, a, t.db, ToRetry(Last(t.db.claims))), PushAndLook(p, lands));
      && u.remote == (if lands then Some(t.desired) else None)
      && if lands then Ends(u.db, Adopted, E.Committed) else Ends(u.db, Quarantined, E.Quarantined)
  {
    var c := Last(t.db.claims);
    RunSix(With(t, p, a, t.db, ToRetry(c)), PushAndLook(p, lands));
    ClearDoes(t, p, a);
    PushDoes(t, p, a, c, lands);
    var u, r := Pushed(t, c.generation, lands), UnknownAfterPush(c, a);
    ReplyDoes(u, p, a, true);
    OwnerStays(u.db, r, a);
    LooksAgain(u.(db := After(u.db, r)), p, a);
  }

  lemma LooksAgain(t: Sys, p: nat, a: Authority)
    requires Inv(t.db) && Desires(t.db, t.desired) && Owns(t.db, a) && Spent(Last(t.db.claims))
    requires t.remote == None || t.remote == Some(t.desired)
    ensures var u := Do(Do(With(t, p, a, t.db, HasClaim(Last(t.db.claims))), ReadStep(p, true)), SettleStep(p));
      && u.remote == t.remote
      && if t.remote.Some? then Ends(u.db, Adopted, E.Committed) else Ends(u.db, Quarantined, E.Quarantined)
  {
    var c := Last(t.db.claims);
    var pc := Read(c, t.remote);
    ReadDoes(t, p, a, c, true);
    SettleAsks(t, Proc(a, pc));
    var r := SettleRequest(t, Proc(a, pc)).value;
    SettleDoes(t, p, a, pc, r);
    Concludes(t.db, r);
  }

  /** An absent ref is decided too. With the retry spent it is quarantined at
      once; otherwise the retry is pushed, and the intent is adopted if the push
      lands and quarantined if it is lost. */
  lemma AbsenceDecides(s: Sys, before: seq<Step>, p: nat, a: Authority, lands: bool)
    requires Init(s) && Admitted(Run(s, before).db, a) && Run(s, before).remote == None
    ensures var t := Run(s, before);
      if Spent(RowFor(t.db, a)) then Ends(Run(t, Look(p, a, true)).db, Quarantined, E.Quarantined)
      else
        var u := Run(t, Look(p, a, true) + PushAndLook(p, lands));
        && u.remote == (if lands then Some(s.desired) else None)
        && if lands then Ends(u.db, Adopted, E.Committed) else Ends(u.db, Quarantined, E.Quarantined)
  {
    RunKeeps(s, before);
    DesiredIsFixed(s, before);
    var t := Run(s, before);
    if Spent(RowFor(t.db, a)) {
      var now, r := LookDoes(t, p, a, true);
      Concludes(now, r);
    } else {
      var db := AbsenceReserves(t, p, a);
      RunConcat(t, Look(p, a, true), PushAndLook(p, lands));
      PushDecides(t.(db := db), p, a, lands);
    }
  }

  /** A ref that cannot be read is recorded as unknown, and contained when it
      cannot be read a second time. */
  lemma BlindReadsContain(s: Sys, before: seq<Step>, p: nat, a: Authority)
    requires Init(s) && Admitted(Run(s, before).db, a)
    ensures var t := Run(s, before);
      var u := Run(t, Look(p, a, false));
      if RowFor(t.db, a).disposition.ReadbackUnknown? then Ends(u.db, Quarantined, E.Quarantined)
      else Ends(u.db, ReadbackUnknown, E.OutcomeUnknown)
           && Ends(Run(u, Look(p, a, false)).db, Quarantined, E.Quarantined)
  {
    RunKeeps(s, before);
    var t := Run(s, before);
    var now, r := LookDoes(t, p, a, false);
    Concludes(now, r);
    if r.to.ReadbackUnknown? {
      OwnerStays(now, r, a);
      var later, q := LookDoes(Run(t, Look(p, a, false)), p, a, false);
      Concludes(later, q);
    }
  }
}
