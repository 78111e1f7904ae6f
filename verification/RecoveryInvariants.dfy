/** What every store transaction keeps of the rows of one intent. */
module RecoveryInvariants {
  import opened Bytes
  import E = EffectStates
  import opened EffectRecovery

  function Last(cs: seq<Claim>): Claim
    requires cs != []
  {
    cs[|cs| - 1]
  }

  function Phase(c: Claim): Disposition {
    if c.disposition.Invalidated? && c.invalidatedFrom.Some? then c.invalidatedFrom.value else c.disposition
  }

  /** Non-invalidating edges a chain of claims may still apply from this row. */
  function Rank(c: Claim): nat {
    match Phase(c)
    case Claimed => 4
    case ReadbackUnknown => if c.retries == 0 then 3 else 1
    case RetryReserved => 2
    case _ => 0
  }

  function Edges(log: seq<Request>): nat {
    if log == [] then 0 else Edges(log[..|log| - 1]) + (if log[|log| - 1].to.Invalidated? then 0 else 1)
  }

  function Reservations(log: seq<Request>): nat {
    if log == [] then 0 else Reservations(log[..|log| - 1]) + (if log[|log| - 1].to.RetryReserved? then 1 else 0)
  }

  ghost predicate RowOk(c: Claim) {
    && RowCheck(c)
    && (Phase(c).RetryReserved? ==> c.receipt == Some(Absent))
    && (c.disposition.Adopted? ==> c.receipt == Some(Match))
    && (c.disposition.Orphaned? ==> c.receipt == Some(Mismatch))
    && (Active(c.disposition) ==>
          (c.outbox.phase.Pending? || c.outbox.phase.Applied?) && !c.outbox.acked && (c.outbox.delivered ==> c.retries == 1))
  }

  /** Generations count up from one, only the last row can be unsettled or
      active, and neither the budget nor the rank is ever given back. */
  ghost predicate RowsOk(cs: seq<Claim>) {
    && (forall k | 0 <= k < |cs| :: RowOk(cs[k]) && cs[k].generation == k + 1)
    && (forall k | 0 <= k < |cs| - 1 :: cs[k].disposition.Invalidated?)
    && (forall k | 0 <= k < |cs| - 1 :: cs[k].retries <= cs[k + 1].retries && Rank(cs[k + 1]) <= Rank(cs[k]))
  }

  /** What a retained transition event says of the row it moved. */
  ghost predicate EventOk(e: Request, c: Claim) {
    && Edge(e.from, e.to)
    && !c.disposition.Claimed?
    && (e.from.RetryReserved? || e.to.RetryReserved? ==> c.retries == 1)
    && (Active(c.disposition) ==>
          && Active(e.to)
          && (e.from == c.disposition ==> e.from.ReadbackUnknown? && e.to.RetryReserved? && c.retries == 1))
  }

  ghost predicate LogOk(cs: seq<Claim>, log: seq<Request>) {
    && (forall e | e in log :: 0 < e.generation <= |cs| && EventOk(e, cs[e.generation - 1]))
    && Reservations(log) <= (if cs == [] then 0 else cs[|cs| - 1].retries)
    && (if cs == [] then log == [] else Edges(log) + Rank(cs[|cs| - 1]) <= 4)
  }

  /** A row is in the reserved phase only after the one logged reservation. */
  ghost predicate ReservedOk(cs: seq<Claim>, log: seq<Request>) {
    forall k | 0 <= k < |cs| :: Phase(cs[k]).RetryReserved? ==> Reservations(log) == 1
  }

  ghost predicate BudgetOk(cs: seq<Claim>, i: Option<Intent>) {
    cs != [] ==> i.Some? && cs[|cs| - 1].retries <= i.value.retries
  }

  ghost predicate Inv(db: Db) {
    RowsOk(db.claims) && LogOk(db.claims, db.log) && ReservedOk(db.claims, db.log) && BudgetOk(db.claims, db.intent)
  }

  /** Under the invariant only the last row can own the intent. */
  lemma OnlyLastIsActive(cs: seq<Claim>)
    requires RowsOk(cs)
    ensures ActiveIndex(cs) == if cs != [] && Active(cs[|cs| - 1].disposition) then Some(|cs| - 1) else None
  {
  }

  lemma InvalidatedRow(c: Claim)
    requires RowOk(c) && Active(c.disposition)
    ensures var c' := Invalidate(c);
      && RowOk(c') && Phase(c') == Phase(c) && Rank(c') == Rank(c)
      && c'.generation == c.generation && c'.retries == c.retries && c'.disposition.Invalidated?
  {
  }

  /** Replacing the last row by one as good keeps the rows. */
  lemma ReplaceLast(cs: seq<Claim>, c: Claim)
    requires RowsOk(cs) && cs != [] && RowOk(c)
    requires var was := cs[|cs| - 1]; c.generation == was.generation && was.retries <= c.retries && Rank(c) <= Rank(was)
    ensures RowsOk(cs[|cs| - 1 := c])
  {
  }

  lemma InvalidateLog(cs: seq<Claim>, log: seq<Request>)
    requires LogOk(cs, log) && cs != [] && RowOk(cs[|cs| - 1]) && Active(cs[|cs| - 1].disposition)
    ensures LogOk(cs[|cs| - 1 := Invalidate(cs[|cs| - 1])], log)
  {
  }

  lemma InvalidateKeeps(db: Db, db': Db)
    requires Inv(db) && db.claims != [] && Active(db.claims[|db.claims| - 1].disposition)
    requires db'.claims == db.claims[|db.claims| - 1 := Invalidate(db.claims[|db.claims| - 1])]
    requires db'.log == db.log && db'.intent == db.intent
    ensures Inv(db')
  {
    var c := db.claims[|db.claims| - 1];
    InvalidatedRow(c);
    ReplaceLast(db.claims, Invalidate(c));
    InvalidateLog(db.claims, db.log);
  }

  lemma NewRow(db: Db, i: Intent, a: Authority)
    requires Inv(db) && db.intent == Some(i)
    requires forall k | 0 <= k < |db.claims| :: !Active(db.claims[k].disposition)
    requires Issue(db, i, a).Ok? && Issue(db, i, a).value.1.Some?
    ensures var (db', c) := Issue(db, i, a).value;
      && RowOk(c.value) && c.value.generation == |db.claims| + 1
      && db'.claims == db.claims + [c.value]
      && db'.log == db.log && db'.cur == db.cur
      && db'.intent == Some(i.(state := E.OutcomeUnknown))
      && c.value.retries == i.retries && c.value.state == E.OutcomeUnknown
      && (db.claims != [] ==>
            var prev := db.claims[|db.claims| - 1];
            && prev.disposition.Invalidated? && c.value.disposition == Phase(prev)
            && Rank(c.value) <= Rank(prev) && prev.retries <= c.value.retries)
  {
  }

  lemma AppendRows(cs: seq<Claim>, c: Claim)
    requires RowsOk(cs) && RowOk(c) && c.generation == |cs| + 1
    requires cs != [] ==>
      var prev := cs[|cs| - 1]; prev.disposition.Invalidated? && Rank(c) <= Rank(prev) && prev.retries <= c.retries
    ensures RowsOk(cs + [c])
  {
    var after := cs + [c];
    forall k | 0 <= k < |after| - 1
      ensures after[k].retries <= after[k + 1].retries && Rank(after[k + 1]) <= Rank(after[k])
    {
      if k < |cs| - 1 { assert after[k + 1] == cs[k + 1]; }
    }
  }

  lemma AppendLog(cs: seq<Claim>, log: seq<Request>, c: Claim)
    requires LogOk(cs, log) && RowOk(c)
    requires cs != [] ==> Rank(c) <= Rank(cs[|cs| - 1]) && cs[|cs| - 1].retries <= c.retries
    ensures LogOk(cs + [c], log)
  {
  }

  lemma AppendKeeps(db: Db, db': Db, c: Claim)
    requires Inv(db) && db.intent.Some? && db'.intent.Some?
    requires RowOk(c) && c.generation == |db.claims| + 1
    requires db'.claims == db.claims + [c] && db'.log == db.log
    requires c.retries <= db'.intent.value.retries
    requires db.claims == [] ==> !Phase(c).RetryReserved?
    requires db.claims != [] ==>
      var prev := db.claims[|db.claims| - 1];
      prev.disposition.Invalidated? && Rank(c) <= Rank(prev) && prev.retries <= c.retries && Phase(c) == Phase(prev)
    ensures Inv(db')
  {
    AppendRows(db.claims, c);
    AppendLog(db.claims, db.log, c);
    assert ReservedOk(db'.claims, db'.log);
  }

  lemma IssueKeeps(db: Db, i: Intent, a: Authority)
    requires Inv(db) && db.intent == Some(i)
    requires forall k | 0 <= k < |db.claims| :: !Active(db.claims[k].disposition)
    requires Issue(db, i, a).Ok?
    ensures Inv(Issue(db, i, a).value.0)
  {
    var (db', c) := Issue(db, i, a).value;
    if c.Some? {
      NewRow(db, i, a);
      AppendKeeps(db, db', c.value);
    }
  }

  lemma VacateKeeps(db: Db)
    requires Inv(db)
    ensures Inv(Vacate(db)) && Vacate(db).intent == db.intent && Vacate(db).log == db.log
    ensures forall k | 0 <= k < |Vacate(db).claims| :: !Active(Vacate(db).claims[k].disposition)
  {
    OnlyLastIsActive(db.claims);
    if ActiveIndex(db.claims).Some? { InvalidateKeeps(db, Vacate(db)); }
  }

  lemma AdmitCases(db: Db, a: Authority)
    ensures
      || Admit(db, a).0 == db
      || (db.intent.Some? && Issue(Vacate(db), db.intent.value, a).Ok?
          && Admit(db, a).0 == Issue(Vacate(db), db.intent.value, a).value.0)
  {
  }

  lemma AdmitKeeps(db: Db, a: Authority)
    requires Inv(db)
    ensures Inv(Admit(db, a).0)
  {
    AdmitCases(db, a);
    VacateKeeps(db);
    if Admit(db, a).0 != db { IssueKeeps(Vacate(db), db.intent.value, a); }
  }

  lemma MoveKeeps(db: Db, cur: Current)
    requires Inv(db)
    ensures Inv(Move(db, cur))
  {
    VacateKeeps(db);
  }

  ghost predicate Accepted(db: Db, r: Request, a: Authority) {
    && 0 < r.generation <= |db.claims| && db.intent.Some?
    && RequestError(r, db.claims[r.generation - 1], a, db.intent.value.desired) == None
  }

  /** The row an accepted request asks for. */
  function Row(db: Db, r: Request): Claim
    requires 0 < r.generation <= |db.claims|
  {
    var c := db.claims[r.generation - 1];
    var outbox := TargetOutbox(c.outbox, r.to);
    Updated(c, r, if outbox.Ok? then outbox.value else c.outbox)
  }

  function Taken(db: Db, r: Request): Db
    requires 0 < r.generation <= |db.claims| && db.intent.Some?
  {
    var c := Row(db, r);
    db.(intent := Some(db.intent.value.(state := c.state, retries := c.retries)),
        claims := db.claims[r.generation - 1 := c], log := db.log + [r])
  }

  /** A transaction changes nothing, drops a claim that is no longer current,
      or applies the request. */
  lemma ApplyCases(db: Db, r: Request, a: Authority)
    ensures var (db', out) := Apply(db, r, a);
      || db' == db
      || (Accepted(db, r, a) && out.Err?
          && db' == db.(claims := db.claims[r.generation - 1 := Invalidate(db.claims[r.generation - 1])]))
      || (Accepted(db, r, a) && out == Ok(Row(db, r)) && RowCheck(Row(db, r)) && db' == Taken(db, r))
  {
  }

  /** An accepted request names the last row, which owns the intent. */
  lemma AcceptedNamesLast(db: Db, r: Request, a: Authority)
    requires RowsOk(db.claims) && Accepted(db, r, a)
    ensures r.generation == |db.claims| && Active(r.from) && r.from == db.claims[|db.claims| - 1].disposition
  {
  }

  lemma UpdatedRow(c: Claim, r: Request, a: Authority, desired: Oid)
    requires RowOk(c) && RequestError(r, c, a, desired) == None
    ensures TargetOutbox(c.outbox, r.to).Ok?
    ensures var c' := Updated(c, r, TargetOutbox(c.outbox, r.to).value);
      && (RowCheck(c') <==> !(r.to.RetryReserved? && r.reason.Some?))
      && (RowCheck(c') ==> RowOk(c'))
      && c'.generation == c.generation && c.retries <= c'.retries
      && Rank(c') + (if r.to.Invalidated? then 0 else 1) <= Rank(c)
      && (r.to.RetryReserved? ==> c.retries == 0 && c'.retries == 1)
  {
  }

  lemma UpdatedEvents(e: Request, c: Claim, r: Request, a: Authority, desired: Oid)
    requires RowOk(c) && RequestError(r, c, a, desired) == None
    requires EventOk(e, c)
    ensures EventOk(e, Updated(c, r, TargetOutbox(c.outbox, r.to).value))
    ensures e != r
  {
  }

  lemma TakenLog(cs: seq<Claim>, log: seq<Request>, r: Request, a: Authority, desired: Oid, c: Claim)
    requires LogOk(cs, log) && cs != [] && RowOk(cs[|cs| - 1]) && r.generation == |cs|
    requires RequestError(r, cs[|cs| - 1], a, desired) == None
    requires TargetOutbox(cs[|cs| - 1].outbox, r.to).Ok?
    requires c == Updated(cs[|cs| - 1], r, TargetOutbox(cs[|cs| - 1].outbox, r.to).value)
    ensures LogOk(cs[|cs| - 1 := c], log + [r])
  {
  }

  lemma TakenReserved(cs: seq<Claim>, log: seq<Request>, r: Request, c: Claim)
    requires ReservedOk(cs, log) && cs != [] && Reservations(log) <= cs[|cs| - 1].retries
    requires r.to.RetryReserved? ==> cs[|cs| - 1].retries == 0
    requires Phase(c).RetryReserved? ==> r.to.RetryReserved? || Phase(cs[|cs| - 1]).RetryReserved?
    ensures ReservedOk(cs[|cs| - 1 := c], log + [r])
  {
  }

  lemma TakenRow(db: Db, r: Request, a: Authority)
    requires Inv(db) && Accepted(db, r, a) && RowCheck(Row(db, r)) && r.generation == |db.claims|
    ensures RowOk(Row(db, r)) && RowsOk(db.claims[|db.claims| - 1 := Row(db, r)])
  {
  }

  lemma TakenKeeps(db: Db, r: Request, a: Authority)
    requires Inv(db) && Accepted(db, r, a) && RowCheck(Row(db, r))
    ensures Inv(Taken(db, r))
  {
    AcceptedNamesLast(db, r, a);
    var was, c := db.claims[|db.claims| - 1], Row(db, r);
    TakenRow(db, r, a);
    UpdatedRow(was, r, a, db.intent.value.desired);
    TakenLog(db.claims, db.log, r, a, db.intent.value.desired, c);
    TakenReserved(db.claims, db.log, r, c);
  }

  lemma ApplyKeeps(db: Db, r: Request, a: Authority)
    requires Inv(db)
    ensures Inv(Apply(db, r, a).0)
  {
    ApplyCases(db, r, a);
    var (db', out) := Apply(db, r, a);
    if db' != db {
      AcceptedNamesLast(db, r, a);
      if out.Ok? { TakenKeeps(db, r, a); } else { InvalidateKeeps(db, db'); }
    }
  }
}
