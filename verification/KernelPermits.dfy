/** One-use mutation permits. `mint` reserves a row under the lock; `check`
    looks its row up under the lock, verifies the signed permit without it and
    consumes the row in a second critical section. */
module KernelPermits {
  import opened Bytes

  const FINGERPRINT_DOMAIN: Buf := Ascii("bullet-gitd.pre-contract-request-fingerprint.v1")

  /** Operation label and the exact JSON bytes of authority and parameters. */
  datatype Call = Call(operation: Buf, authority: Buf, params: Buf)

  predicate CallFits(c: Call) { Fits(c.operation) && Fits(c.authority) && Fits(c.params) }

  function FingerprintInput(c: Call): Buf {
    FrameAll([FINGERPRINT_DOMAIN, c.operation, c.authority, c.params])
  }

  function Fingerprint(h: Hash, c: Call): Buf { ToHex(h(FingerprintInput(c))) }

  function IdInput(operation: Buf, fingerprint: Buf, attempt: Buf): Buf {
    operation + Ascii(":") + fingerprint + Ascii(":") + attempt
  }

  function MutationId(h: Hash, operation: Buf, fingerprint: Buf, attempt: Buf): Buf {
    Ascii("mut_") + ToHex(h(IdInput(operation, fingerprint, attempt)))
  }

  datatype PermitClaims = PermitClaims(
    operation: Buf, mutationId: Buf, requestDigest: Buf, attempt: Buf, fence: nat, permitNonce: nat)
  datatype Reserved = Reserved(claims: PermitClaims, spent: bool)
  type Rows = map<Buf, Reserved>

  /** What the online lease read-back and the presented token say. */
  datatype MintRequest = MintRequest(
    call: Call, attempt: Buf, fence: nat, nonce: Buf, tokenFence: nat, tokenNonce: Buf, permitNonce: nat)

  datatype Refusal = LeaseMismatch | AlreadyIssued | FingerprintMismatch | NoReservation | PermitRefused
                   | Disappeared | AlreadyConsumed
  datatype Answer<+T> = Granted(value: T) | Refused(why: Refusal)

  function ClaimsFor(h: Hash, m: MintRequest): PermitClaims {
    var fp := Fingerprint(h, m.call);
    PermitClaims(m.call.operation, MutationId(h, m.call.operation, fp, m.attempt), fp, m.attempt, m.fence, m.permitNonce)
  }

  predicate LeaseAgrees(m: MintRequest) { m.fence == m.tokenFence && m.nonce == m.tokenNonce }

  predicate Matches(row: Reserved, fingerprint: Buf, attempt: Buf) {
    row.claims.requestDigest == fingerprint && row.claims.attempt == attempt && !row.spent
  }

  // ---- the three critical sections ----------------------------------------

  function Mint(rows: Rows, c: PermitClaims): (Rows, Answer<PermitClaims>) {
    if c.mutationId in rows then (rows, Refused(AlreadyIssued))
    else (rows[c.mutationId := Reserved(c, false)], Granted(c))
  }

  function Consume(rows: Rows, id: Buf): (Rows, Answer<Buf>) {
    if id !in rows then (rows, Refused(Disappeared))
    else if rows[id].spent then (rows, Refused(AlreadyConsumed))
    else (rows[id := rows[id].(spent := true)], Granted(id))
  }

  class KernelAuthority {
    var rows: Rows
    const h: Hash

    constructor (digest: Hash)
      ensures rows == map[] && h == digest
    {
      rows, h := map[], digest;
    }

    method MintPermit(m: MintRequest) returns (out: Answer<PermitClaims>)
      modifies this`rows
      ensures !LeaseAgrees(m) ==> rows == old(rows) && out == Refused(LeaseMismatch)
      ensures LeaseAgrees(m) ==> (rows, out) == Mint(old(rows), ClaimsFor(h, m))
    {
      var framed := BuildFrames([FINGERPRINT_DOMAIN, m.call.operation, m.call.authority, m.call.params]);
      var fp := ToHex(h(framed));
      if m.fence != m.tokenFence || m.nonce != m.tokenNonce { return Refused(LeaseMismatch); }
      var id := MutationId(h, m.call.operation, fp, m.attempt);
      var claims := PermitClaims(m.call.operation, id, fp, m.attempt, m.fence, m.permitNonce);
      if id in rows { return Refused(AlreadyIssued); }
      rows := rows[id := Reserved(claims, false)];
      return Granted(claims);
    }

    /** First critical section of `check`: any unspent row of this request. */
    method Find(fingerprint: Buf, attempt: Buf) returns (row: Option<Reserved>)
      ensures row == None <==> forall id | id in rows :: !Matches(rows[id], fingerprint, attempt)
      ensures row.Some? ==> exists id :: id in rows && rows[id] == row.value && Matches(rows[id], fingerprint, attempt)
    {
      if exists id :: id in rows && Matches(rows[id], fingerprint, attempt) {
        var id :| id in rows && Matches(rows[id], fingerprint, attempt);
        return Some(rows[id]);
      }
      return None;
    }

    /** Second critical section of `check`. */
    method Spend(id: Buf) returns (out: Answer<Buf>)
      modifies this`rows
      ensures (rows, out) == Consume(old(rows), id)
    {
      if id !in rows { return Refused(Disappeared); }
      if rows[id].spent { return Refused(AlreadyConsumed); }
      rows := rows[id := rows[id].(spent := true)];
      return Granted(id);
    }

    /** `check` run alone. `verified` is the outcome of the signature check. */
    method Check(call: Call, attempt: Buf, transport: Buf, verified: PermitClaims -> bool) returns (out: Answer<Buf>)
      requires forall id | id in rows :: rows[id].claims.mutationId == id
      modifies this`rows
      ensures out.Granted? ==>
        && transport == Fingerprint(h, call)
        && out.value in old(rows) && Matches(old(rows)[out.value], transport, attempt)
        && verified(old(rows)[out.value].claims)
        && rows == old(rows)[out.value := old(rows)[out.value].(spent := true)]
      ensures out.Refused? ==> rows == old(rows) && !out.why.Disappeared? && !out.why.AlreadyConsumed?
      ensures out == Refused(NoReservation) ==> forall id | id in rows :: !Matches(rows[id], transport, attempt)
      ensures out == Refused(FingerprintMismatch) <==> transport != Fingerprint(h, call)
      ensures
        && transport == Fingerprint(h, call)
        && (exists id :: id in old(rows) && Matches(old(rows)[id], transport, attempt))
        && (forall id | id in old(rows) && Matches(old(rows)[id], transport, attempt) :: verified(old(rows)[id].claims))
        ==> out.Granted?
    {
      var framed := BuildFrames([FINGERPRINT_DOMAIN, call.operation, call.authority, call.params]);
      var fp := ToHex(h(framed));
      if fp != transport { return Refused(FingerprintMismatch); }
      var row := Find(fp, attempt);
      if row == None { return Refused(NoReservation); }
      if !verified(row.value.claims) { return Refused(PermitRefused); }
      out := Spend(row.value.claims.mutationId);
    }
  }

  // ---- unique decoding of the fingerprint ---------------------------------

  /** Equal fingerprints mean equal operation, authority and parameter bytes. */
  lemma FingerprintBinds(h: Hash, a: Call, b: Call)
    requires CallFits(a) && CallFits(b)
    requires CollisionFreeOn(h, {FingerprintInput(a), FingerprintInput(b)})
    requires Fingerprint(h, a) == Fingerprint(h, b)
    ensures a == b
  {
    ToHexInjective(h(FingerprintInput(a)), h(FingerprintInput(b)));
    var x := [FINGERPRINT_DOMAIN, a.operation, a.authority, a.params];
    var y := [FINGERPRINT_DOMAIN, b.operation, b.authority, b.params];
    FrameAllInjective(x, y);
    assert x[1] == y[1] && x[2] == y[2] && x[3] == y[3];
  }

  // ---- concurrent runs ----------------------------------------------------

  /** A caller between the critical sections of its `check`. */
  datatype Caller =
    | Looked(row: Reserved, fingerprint: Buf, attempt: Buf)
    | Ready(row: Reserved, fingerprint: Buf, attempt: Buf)

  datatype Event = Minted(id: Buf) | Consumed(id: Buf, caller: nat, fingerprint: Buf, attempt: Buf)

  /** `mints` records the granted requests, `history` the events in order and
      `vanished` the checks that found their reservation gone. */
  datatype Kernel = Kernel(
    rows: Rows, callers: map<nat, Caller>, mints: seq<MintRequest>, history: seq<Event>, vanished: nat)

  datatype Step =
    | MintStep(m: MintRequest)
    | LookupStep(caller: nat, call: Call, attempt: Buf, id: Buf)
    | VerifyStep(caller: nat, ok: bool)
    | ConsumeStep(caller: nat)

  function Do(h: Hash, k: Kernel, step: Step): Kernel {
    match step
    case MintStep(m) =>
      if !LeaseAgrees(m) then k
      else
        var c := ClaimsFor(h, m);
        var (rows, out) := Mint(k.rows, c);
        if out.Refused? then k
        else k.(rows := rows, mints := k.mints + [m], history := k.history + [Minted(c.mutationId)])
    case LookupStep(p, call, attempt, id) =>
      if id in k.rows && Matches(k.rows[id], Fingerprint(h, call), attempt)
      then k.(callers := k.callers[p := Looked(k.rows[id], Fingerprint(h, call), attempt)]) else k
    case VerifyStep(p, ok) =>
      if p !in k.callers || !k.callers[p].Looked? then k
      else if ok then k.(callers := k.callers[p := Ready(k.callers[p].row, k.callers[p].fingerprint, k.callers[p].attempt)])
      else k.(callers := k.callers - {p})
    case ConsumeStep(p) =>
      if p !in k.callers || !k.callers[p].Ready? then k
      else
        var me := k.callers[p];
        var id := me.row.claims.mutationId;
        var (rows, out) := Consume(k.rows, id);
        var done := k.(rows := rows, callers := k.callers - {p});
        if out.Granted? then done.(history := k.history + [Consumed(id, p, me.fingerprint, me.attempt)])
        else if out.why.Disappeared? then done.(vanished := k.vanished + 1)
        else done
  }

  function Run(h: Hash, k: Kernel, steps: seq<Step>): Kernel
    decreases |steps|
  {
    if steps == [] then k else Run(h, Do(h, k, steps[0]), steps[1..])
  }

  const START: Kernel := Kernel(map[], map[], [], [], 0)

  ghost predicate IsConsumed(history: seq<Event>, id: Buf) {
    exists j :: 0 <= j < |history| && history[j].Consumed? && history[j].id == id
  }

  /** No id is minted twice or consumed twice, and each consumption comes
      after its mint. */
  ghost predicate OneUse(history: seq<Event>) {
    && (forall i, j | 0 <= i < j < |history| && history[i].Minted? && history[j].Minted? :: history[i].id != history[j].id)
    && (forall i, j | 0 <= i < j < |history| && history[i].Consumed? && history[j].Consumed? :: history[i].id != history[j].id)
    && (forall j | 0 <= j < |history| && history[j].Consumed? ::
          exists i :: 0 <= i < j && history[i] == Minted(history[j].id))
  }

  /** The row is the reservation of a granted mint request. */
  ghost predicate Born(h: Hash, mints: seq<MintRequest>, id: Buf, row: Reserved) {
    row.claims.mutationId == id && exists m :: m in mints && row.claims == ClaimsFor(h, m)
  }

  /** The rows are the minted ids, spent exactly when consumed. */
  ghost predicate RowsOk(rows: Rows, history: seq<Event>) {
    && (forall id :: id in rows <==> Minted(id) in history)
    && (forall id | id in rows :: rows[id].spent <==> IsConsumed(history, id))
  }

  ghost predicate AllBorn(h: Hash, rows: Rows, mints: seq<MintRequest>) {
    forall id | id in rows :: Born(h, mints, id, rows[id])
  }

  ghost predicate Holds(rows: Rows, id: Buf, fingerprint: Buf, attempt: Buf) {
    id in rows && rows[id].claims.requestDigest == fingerprint && rows[id].claims.attempt == attempt
  }

  ghost predicate CallersOk(rows: Rows, callers: map<nat, Caller>) {
    forall p | p in callers :: Holds(rows, callers[p].row.claims.mutationId, callers[p].fingerprint, callers[p].attempt)
  }

  ghost predicate EventsHold(rows: Rows, history: seq<Event>) {
    forall e | e in history && e.Consumed? :: Holds(rows, e.id, e.fingerprint, e.attempt)
  }

  ghost predicate Inv(h: Hash, k: Kernel) {
    && OneUse(k.history)
    && RowsOk(k.rows, k.history)
    && AllBorn(h, k.rows, k.mints)
    && CallersOk(k.rows, k.callers)
    && EventsHold(k.rows, k.history)
    && k.vanished == 0
  }

  lemma AppendOneUse(history: seq<Event>, e: Event)
    requires OneUse(history)
    requires e.Minted? ==> e !in history
    requires e.Consumed? ==> Minted(e.id) in history && !IsConsumed(history, e.id)
    ensures OneUse(history + [e])
    ensures forall id :: IsConsumed(history + [e], id) <==> IsConsumed(history, id) || (e.Consumed? && e.id == id)
    ensures forall id :: Minted(id) in history + [e] <==> Minted(id) in history || e == Minted(id)
  {
    var all := history + [e];
    forall j | 0 <= j < |all| && all[j].Consumed?
      ensures exists i :: 0 <= i < j && all[i] == Minted(all[j].id)
    {
      if j < |history| {
        var i :| 0 <= i < j && history[i] == Minted(history[j].id);
        assert all[i] == Minted(all[j].id);
      } else {
        var i :| 0 <= i < |history| && history[i] == Minted(e.id);
        assert all[i] == Minted(all[j].id);
      }
    }
    forall id
      ensures IsConsumed(all, id) <==> IsConsumed(history, id) || (e.Consumed? && e.id == id)
    {
      if IsConsumed(history, id) {
        var j :| 0 <= j < |history| && history[j].Consumed? && history[j].id == id;
        assert all[j].Consumed? && all[j].id == id;
      }
      if e.Consumed? && e.id == id { assert all[|history|] == e; }
    }
  }

  lemma StepKeeps(h: Hash, k: Kernel, step: Step)
    requires Inv(h, k)
    ensures Inv(h, Do(h, k, step))
  {
    match step
    case MintStep(m) => MintKeeps(h, k, m);
    case LookupStep(_, _, _, _) =>
    case VerifyStep(_, _) =>
    case ConsumeStep(p) => ConsumeKeeps(h, k, p);
  }

  lemma MintKeeps(h: Hash, k: Kernel, m: MintRequest)
    requires Inv(h, k)
    ensures Inv(h, Do(h, k, MintStep(m)))
  {
    var c := ClaimsFor(h, m);
    if LeaseAgrees(m) && c.mutationId !in k.rows {
      MintedRows(k.rows, k.history, c.mutationId, Reserved(c, false));
      MintedBorn(h, k.rows, k.mints, m);
      MintedHold(k.rows, k.callers, k.history, c.mutationId, Reserved(c, false));
    }
  }

  lemma MintedRows(rows: Rows, history: seq<Event>, id: Buf, row: Reserved)
    requires OneUse(history) && RowsOk(rows, history) && id !in rows && !row.spent
    ensures OneUse(history + [Minted(id)]) && RowsOk(rows[id := row], history + [Minted(id)])
  {
    NeverMinted(history, id);
    AppendOneUse(history, Minted(id));
  }

  lemma MintedBorn(h: Hash, rows: Rows, mints: seq<MintRequest>, m: MintRequest)
    requires AllBorn(h, rows, mints)
    ensures AllBorn(h, rows[ClaimsFor(h, m).mutationId := Reserved(ClaimsFor(h, m), false)], mints + [m])
  {
  }

  lemma MintedHold(rows: Rows, callers: map<nat, Caller>, history: seq<Event>, id: Buf, row: Reserved)
    requires id !in rows && CallersOk(rows, callers) && EventsHold(rows, history)
    ensures CallersOk(rows[id := row], callers) && EventsHold(rows[id := row], history + [Minted(id)])
  {
  }

  lemma NeverMinted(history: seq<Event>, id: Buf)
    requires OneUse(history) && Minted(id) !in history
    ensures !IsConsumed(history, id)
  {
  }

  lemma ConsumeKeeps(h: Hash, k: Kernel, p: nat)
    requires Inv(h, k)
    ensures Inv(h, Do(h, k, ConsumeStep(p)))
  {
    if p !in k.callers || !k.callers[p].Ready? { return; }
    var me := k.callers[p];
    var id := me.row.claims.mutationId;
    assert Holds(k.rows, id, me.fingerprint, me.attempt);
    if !k.rows[id].spent {
      var e := Consumed(id, p, me.fingerprint, me.attempt);
      SpentRows(k.rows, k.history, e);
      SpentBorn(h, k.rows, k.mints, id);
      SpentCallers(k.rows, k.callers, id);
      SpentEvents(k.rows, k.history, e);
    }
  }

  lemma SpentRows(rows: Rows, history: seq<Event>, e: Event)
    requires OneUse(history) && RowsOk(rows, history) && e.Consumed? && e.id in rows && !rows[e.id].spent
    ensures OneUse(history + [e]) && RowsOk(Consume(rows, e.id).0, history + [e])
  {
    AppendOneUse(history, e);
  }

  lemma SpentBorn(h: Hash, rows: Rows, mints: seq<MintRequest>, id: Buf)
    requires AllBorn(h, rows, mints)
    ensures AllBorn(h, Consume(rows, id).0, mints)
  {
  }

  lemma SpentCallers(rows: Rows, callers: map<nat, Caller>, id: Buf)
    requires CallersOk(rows, callers) && id in rows && !rows[id].spent
    ensures CallersOk(Consume(rows, id).0, callers)
  {
  }

  lemma SpentEvents(rows: Rows, history: seq<Event>, e: Event)
    requires EventsHold(rows, history) && e.Consumed? && Holds(rows, e.id, e.fingerprint, e.attempt) && !rows[e.id].spent
    ensures EventsHold(Consume(rows, e.id).0, history + [e])
  {
  }

  lemma {:induction false} RunKeeps(h: Hash, k: Kernel, steps: seq<Step>)
    requires Inv(h, k)
    ensures Inv(h, Run(h, k, steps))
    decreases |steps|
  {
    if steps != [] {
      StepKeeps(h, k, steps[0]);
      RunKeeps(h, Do(h, k, steps[0]), steps[1..]);
    }
  }

  /** Over every interleaving of any number of callers: an id is minted at
      most once, consumed by at most one successful check and only after its
      mint, a success consumes a reservation of its own request and attempt,
      and no check ever finds its reservation gone. */
  lemma PermitsAreOneUse(h: Hash, steps: seq<Step>)
    ensures var k := Run(h, START, steps);
      && OneUse(k.history)
      && (forall e | e in k.history && e.Consumed? :: Holds(k.rows, e.id, e.fingerprint, e.attempt))
      && k.vanished == 0
  {
    RunKeeps(h, START, steps);
  }

  ghost function MintInputs(mints: seq<MintRequest>): set<Buf> {
    set m | m in mints :: FingerprintInput(m.call)
  }

  lemma SameMint(h: Hash, mints: seq<MintRequest>, m: MintRequest, n: MintRequest)
    requires m in mints && n in mints && CallFits(m.call) && CallFits(n.call)
    requires CollisionFreeOn(h, MintInputs(mints)) && Fingerprint(h, m.call) == Fingerprint(h, n.call)
    ensures m.call == n.call
  {
    assert FingerprintInput(m.call) in MintInputs(mints) && FingerprintInput(n.call) in MintInputs(mints);
    FingerprintBinds(h, m.call, n.call);
  }

  lemma RowIsUnique(h: Hash, k: Kernel, a: Buf, b: Buf)
    requires AllBorn(h, k.rows, k.mints)
    requires forall m | m in k.mints :: CallFits(m.call)
    requires CollisionFreeOn(h, MintInputs(k.mints))
    requires a in k.rows && b in k.rows
    requires k.rows[a].claims.requestDigest == k.rows[b].claims.requestDigest
    requires k.rows[a].claims.attempt == k.rows[b].claims.attempt
    ensures a == b
  {
    assert Born(h, k.mints, a, k.rows[a]) && Born(h, k.mints, b, k.rows[b]);
    var m :| m in k.mints && k.rows[a].claims == ClaimsFor(h, m);
    var n :| n in k.mints && k.rows[b].claims == ClaimsFor(h, n);
    SameMint(h, k.mints, m, n);
  }

  /** With collision-free fingerprints, one reservation at most can match. */
  lemma LookupIsUnique(h: Hash, steps: seq<Step>, a: Buf, b: Buf, fingerprint: Buf, attempt: Buf)
    requires var k := Run(h, START, steps);
      && (forall m | m in k.mints :: CallFits(m.call))
      && CollisionFreeOn(h, MintInputs(k.mints))
      && a in k.rows && Matches(k.rows[a], fingerprint, attempt)
      && b in k.rows && Matches(k.rows[b], fingerprint, attempt)
    ensures a == b
  {
    RunKeeps(h, START, steps);
    RowIsUnique(h, Run(h, START, steps), a, b);
  }

  // ---- which mints are granted ------------------------------------------------

  const COLON: Byte := 58

  /** Two fields that end at their first colon end at the same place. */
  lemma ColonCancel(a: Buf, x: Buf, b: Buf, y: Buf)
    requires COLON !in a && COLON !in b && a + [COLON] + x == b + [COLON] + y
    ensures a == b && x == y
  {
    var s, t := a + [COLON] + x, b + [COLON] + y;
    assert s[|a|] == COLON && t[|b|] == COLON;
    assert forall i | 0 <= i < |a| :: s[i] == a[i];
    assert forall i | 0 <= i < |b| :: t[i] == b[i];
    assert |a| == |b|;
    assert a == s[..|a|] && b == t[..|b|] && x == s[|a| + 1..] && y == t[|b| + 1..];
  }

  lemma HexHasNoColon(b: Buf)
    ensures COLON !in ToHex(b)
  {
    forall c | c in ToHex(b)
      ensures c != COLON
    {
      var i :| 0 <= i < |ToHex(b)| && ToHex(b)[i] == c;
      assert LowerHex(ToHex(b)[i]);
    }
  }

  /** What the mutation id of a request is the digest of. */
  function IdInputOf(h: Hash, m: MintRequest): Buf { IdInput(m.call.operation, Fingerprint(h, m.call), m.attempt) }

  /** Requests share a mutation id only if call and attempt are the same. */
  lemma MutationIdBinds(h: Hash, m: MintRequest, n: MintRequest)
    requires COLON !in m.call.operation && COLON !in n.call.operation && CallFits(m.call) && CallFits(n.call)
    requires CollisionFreeOn(h, {FingerprintInput(m.call), FingerprintInput(n.call)})
    requires CollisionFreeOn(h, {IdInputOf(h, m), IdInputOf(h, n)})
    ensures ClaimsFor(h, m).mutationId == ClaimsFor(h, n).mutationId <==> m.call == n.call && m.attempt == n.attempt
  {
    if ClaimsFor(h, m).mutationId == ClaimsFor(h, n).mutationId { SameId(h, m, n); }
  }

  lemma SameId(h: Hash, m: MintRequest, n: MintRequest)
    requires COLON !in m.call.operation && COLON !in n.call.operation && CallFits(m.call) && CallFits(n.call)
    requires CollisionFreeOn(h, {FingerprintInput(m.call), FingerprintInput(n.call)})
    requires CollisionFreeOn(h, {IdInputOf(h, m), IdInputOf(h, n)})
    requires ClaimsFor(h, m).mutationId == ClaimsFor(h, n).mutationId
    ensures m.call == n.call && m.attempt == n.attempt
  {
    var x, y := IdInputOf(h, m), IdInputOf(h, n);
    var fm, fn := Fingerprint(h, m.call), Fingerprint(h, n.call);
    IdTail(ToHex(h(x)), ToHex(h(y)));
    ToHexInjective(h(x), h(y));
    assert Ascii(":") == [COLON];
    assert x == m.call.operation + [COLON] + (fm + [COLON] + m.attempt);
    assert y == n.call.operation + [COLON] + (fn + [COLON] + n.attempt);
    ColonCancel(m.call.operation, fm + [COLON] + m.attempt, n.call.operation, fn + [COLON] + n.attempt);
    HexHasNoColon(h(FingerprintInput(m.call)));
    HexHasNoColon(h(FingerprintInput(n.call)));
    ColonCancel(fm, m.attempt, fn, n.attempt);
    FingerprintBinds(h, m.call, n.call);
  }

  lemma IdTail(x: Buf, y: Buf)
    requires Ascii("mut_") + x == Ascii("mut_") + y
    ensures x == y
  {
    assert x == (Ascii("mut_") + x)[4..] && y == (Ascii("mut_") + y)[4..];
  }

  /** Every granted request has its own reservation. */
  ghost predicate AllReserved(h: Hash, rows: Rows, mints: seq<MintRequest>) {
    forall m | m in mints :: ClaimsFor(h, m).mutationId in rows && rows[ClaimsFor(h, m).mutationId].claims == ClaimsFor(h, m)
  }

  lemma {:induction false} RunReserves(h: Hash, k: Kernel, steps: seq<Step>)
    requires AllReserved(h, k.rows, k.mints)
    ensures var t := Run(h, k, steps); AllReserved(h, t.rows, t.mints)
    decreases |steps|
  {
    if steps != [] { RunReserves(h, Do(h, k, steps[0]), steps[1..]); }
  }

  ghost predicate WellFormed(mints: seq<MintRequest>) {
    forall m | m in mints :: CallFits(m.call) && COLON !in m.call.operation
  }

  ghost function IdInputs(h: Hash, mints: seq<MintRequest>): set<Buf> { set m | m in mints :: IdInputOf(h, m) }

  ghost predicate Distinguishes(h: Hash, mints: seq<MintRequest>) {
    CollisionFreeOn(h, MintInputs(mints)) && CollisionFreeOn(h, IdInputs(h, mints))
  }

  lemma IdsDiffer(h: Hash, mints: seq<MintRequest>, m: MintRequest, n: MintRequest)
    requires WellFormed(mints) && Distinguishes(h, mints) && m in mints && n in mints
    ensures ClaimsFor(h, m).mutationId == ClaimsFor(h, n).mutationId <==> m.call == n.call && m.attempt == n.attempt
  {
    assert FingerprintInput(m.call) in MintInputs(mints) && FingerprintInput(n.call) in MintInputs(mints);
    assert IdInputOf(h, m) in IdInputs(h, mints) && IdInputOf(h, n) in IdInputs(h, mints);
    MutationIdBinds(h, m, n);
  }

  ghost predicate Issued(mints: seq<MintRequest>, m: MintRequest) {
    exists n :: n in mints && n.call == m.call && n.attempt == m.attempt
  }

  lemma ReservedIffIssued(h: Hash, k: Kernel, m: MintRequest)
    requires AllBorn(h, k.rows, k.mints) && AllReserved(h, k.rows, k.mints)
    requires WellFormed(k.mints + [m]) && Distinguishes(h, k.mints + [m])
    ensures ClaimsFor(h, m).mutationId in k.rows <==> Issued(k.mints, m)
  {
    var id, all := ClaimsFor(h, m).mutationId, k.mints + [m];
    assert m in all;
    if id in k.rows {
      assert Born(h, k.mints, id, k.rows[id]);
      var n :| n in k.mints && k.rows[id].claims == ClaimsFor(h, n);
      assert n in all;
      IdsDiffer(h, all, m, n);
    }
    if Issued(k.mints, m) {
      var n :| n in k.mints && n.call == m.call && n.attempt == m.attempt;
      assert n in all;
      IdsDiffer(h, all, m, n);
    }
  }

  /** After any run a mint is granted exactly when its lease agrees and no permit
      was issued before for the same call and attempt. */
  lemma MintsExactly(h: Hash, steps: seq<Step>, m: MintRequest)
    requires var k := Run(h, START, steps); WellFormed(k.mints + [m]) && Distinguishes(h, k.mints + [m])
    ensures var k := Run(h, START, steps);
      Do(h, k, MintStep(m)).mints == k.mints + (if LeaseAgrees(m) && !Issued(k.mints, m) then [m] else [])
  {
    RunKeeps(h, START, steps);
    RunReserves(h, START, steps);
    ReservedIffIssued(h, Run(h, START, steps), m);
  }

  /** A granted permit can be used until it has been: after any run in which it
      is not consumed, a caller that looks it up for its own call and attempt and
      verifies it consumes it. */
  lemma PermitCanBeUsed(h: Hash, steps: seq<Step>, m: MintRequest, p: nat)
    requires var k := Run(h, START, steps); m in k.mints && !IsConsumed(k.history, ClaimsFor(h, m).mutationId)
    ensures var k, id := Run(h, START, steps), ClaimsFor(h, m).mutationId;
      var t := Do(h, Do(h, Do(h, k, LookupStep(p, m.call, m.attempt, id)), VerifyStep(p, true)), ConsumeStep(p));
      && t.history == k.history + [Consumed(id, p, Fingerprint(h, m.call), m.attempt)]
      && id in t.rows && t.rows[id].spent
  {
    RunKeeps(h, START, steps);
    RunReserves(h, START, steps);
    UseIt(h, Run(h, START, steps), m, p);
  }

  lemma UseIt(h: Hash, k: Kernel, m: MintRequest, p: nat)
    requires RowsOk(k.rows, k.history) && AllReserved(h, k.rows, k.mints) && m in k.mints
    requires !IsConsumed(k.history, ClaimsFor(h, m).mutationId)
    ensures var id := ClaimsFor(h, m).mutationId;
      var t := Do(h, Do(h, Do(h, k, LookupStep(p, m.call, m.attempt, id)), VerifyStep(p, true)), ConsumeStep(p));
      && t.history == k.history + [Consumed(id, p, Fingerprint(h, m.call), m.attempt)]
      && id in t.rows && t.rows[id].spent
  {
  }
}
