/** The durable store, transaction by transaction. Each method is one
    immediate transaction: it works on local copies and assigns the rows when
    it commits, so an early refusal leaves every row as it was. */
module RecoveryStore {
  import opened Bytes
  import E = EffectStates
  import opened EffectRecovery
  import opened RecoveryInvariants
  import opened RecoveryProgress

  class EffectRecoveryStore {
    var intent: Option<Intent>
    var claims: seq<Claim>
    var log: seq<Request>
    var cur: Current

    constructor (row: Option<Intent>, now: Current)
      ensures Rows() == Db(row, [], [], now)
    {
      intent, claims, log, cur := row, [], [], now;
    }

    ghost function Rows(): Db
      reads this
    {
      Db(intent, claims, log, cur)
    }

    /** Atomically normalize and claim one unresolved intent. */
    method ClaimEffectRecovery(a: Authority) returns (out: Outcome<Option<Claim>>)
      modifies this`intent, this`claims
      ensures (Rows(), out) == Admit(old(Rows()), a)
      ensures Inv(old(Rows())) ==> Inv(Rows())
      ensures Inv(old(Rows())) ==> (out.Ok? && out.value.Some? <==> Owns(old(Rows()), a) || MayClaim(old(Rows()), a))
    {
      ghost var was := Rows();
      if Inv(was) {
        AdmitKeeps(was, a);
        AdmitsExactly(was, a);
      }
      if cur.pending || cur.epochs != a.epochs { return Err(StaleAuthority); }
      if intent == None { return Ok(None); }
      var rows := claims;
      var k := ActiveIndex(rows);
      if k.Some? {
        var held := rows[k.value];
        if ClaimIsCurrent(held, cur) {
          if held.authority != a { return Err(ClaimConflict); }
          return if Synced(held, intent.value) && ClaimValid(held, intent.value) then Ok(Some(held)) else Err(SubjectMismatch);
        }
        rows := rows[k.value := Invalidate(held)];
      }
      var previous := Latest(rows);
      if previous.Some? && Settled(previous.value.disposition) {
        if !Synced(previous.value, intent.value) { return Err(SubjectMismatch); }
        if !HoldsLease(a, cur) { return Err(StaleAuthority); }
        if !IsSuccessor(intent.value, a) { return Err(SubjectMismatch); }
        claims := rows;
        return Ok(None);
      }
      var normal := E.NormalizeForRecovery(intent.value.state);
      if normal == None { return Err(InvalidTransition); }
      var row := intent.value.(state := normal.value);
      if !HoldsLease(a, cur) { return Err(StaleAuthority); }
      if !IsSuccessor(row, a) { return Err(SubjectMismatch); }
      var next := NextDisposition(previous, row);
      if next.Err? { return Err(next.error); }
      var claim := NewClaim(previous, row, next.value, a, cur);
      if next.value.RetryReserved? && claim.receipt == None { return Err(SubjectMismatch); }
      if !ClaimValid(claim, row) || !GenerationFollows(claim, previous) || !RowCheck(claim) { return Err(InvalidClaim); }
      intent, claims := Some(row), rows + [claim];
      return Ok(Some(claim));
    }

    /** Read back only this owner's active claim. */
    method ReadbackEffectRecovery(a: Authority) returns (out: Outcome<Option<Claim>>)
      ensures out == Readback(Rows(), a)
    {
      var k := ActiveIndex(claims);
      if k == None { return Ok(None); }
      var refused := OwnerError(claims[k.value], a);
      if refused.Some? { return Err(refused.value); }
      if !ClaimIsCurrent(claims[k.value], cur) { return Err(StaleAuthority); }
      return Ok(Some(claims[k.value]));
    }

    /** Atomically apply one validated edge with intent, outbox and event. */
    method ApplyEffectRecovery(r: Request, a: Authority) returns (out: Outcome<Claim>)
      modifies this`intent, this`claims, this`log
      ensures (Rows(), out) == Apply(old(Rows()), r, a)
      ensures Inv(old(Rows())) ==> Inv(Rows())
      ensures Inv(old(Rows())) && Owns(old(Rows()), a) && r.generation == |old(claims)| && r.to != Last(old(claims)).disposition ==>
        (out.Ok? <==> Speaks(Last(old(claims)), r) && Admissible(Last(old(claims)), r, old(intent).value.desired))
    {
      ghost var was := Rows();
      if Inv(was) {
        ApplyKeeps(was, r, a);
        if Owns(was, a) && r.generation == |claims| && r.to != Last(claims).disposition { AppliesExactly(was, r, a); }
      }
      if r.generation == 0 || r.generation > |claims| { return Err(UnknownClaim); }
      if intent == None { return Err(Store); }
      var k := r.generation - 1;
      var stored, row := claims[k], intent.value;
      if !ClaimValid(stored, row) || !Synced(stored, row) { return Err(SubjectMismatch); }
      if stored.disposition == r.to {
        if r.authority != stored.authority || stored.authority != a { return Err(SubjectMismatch); }
        if !Edge(r.from, r.to) { return Err(InvalidTransition); }
        if !ClaimIsCurrent(stored, cur) { return Err(StaleAuthority); }
        var retained := CountEvents(r);
        if retained != 1 || ReceiptOf(r) != stored.receipt || r.reason != stored.reason { return Err(SubjectMismatch); }
        return Ok(stored);
      }
      var refused := RequestError(r, stored, a, row.desired);
      if refused.Some? { return Err(refused.value); }
      if !ClaimIsCurrent(stored, cur) {
        claims := claims[k := Invalidate(stored)];
        return Err(StaleAuthority);
      }
      var outbox := TargetOutbox(stored.outbox, r.to);
      if outbox.Err? { return Err(outbox.error); }
      var updated := Updated(stored, r, outbox.value);
      if !RowCheck(updated) { return Err(Store); }
      intent := Some(row.(state := updated.state, retries := updated.retries));
      claims := claims[k := updated];
      log := log + [r];
      return Ok(updated);
    }

    method CountEvents(r: Request) returns (n: nat)
      ensures n == Count(log, r)
    {
      n := 0;
      for i := 0 to |log|
        invariant n == Count(log[..i], r)
      {
        assert log[..i + 1][..i] == log[..i];
        if log[i] == r { n := n + 1; }
      }
      assert log[..|log|] == log;
    }

    /** An authority, restore or lease change, with the triggers it fires. */
    method MoveAuthority(now: Current)
      modifies this`cur, this`claims
      ensures Rows() == Move(old(Rows()), now)
      ensures Inv(old(Rows())) ==> Inv(Rows())
    {
      ghost var was := Rows();
      if Inv(was) { MoveKeeps(was, now); }
      var k := ActiveIndex(claims);
      if k.Some? && TriggerFires(claims[k.value], cur, now) {
        claims := claims[k.value := Invalidate(claims[k.value])];
      }
      cur := now;
    }
  }
}
