# Bullet Kernel in Dafny

A model of the parts of Bullet Kernel where a mistake costs authority or
history: the bounded recovery of an effect after a restart, one-use mutation
permits, the replayable event stream, chained audit batches, writer leases and
fences, graph deltas, context capsules, the runtime schema bundle, and the
byte parsers at the process boundary. Protocols are state machines whose steps
follow the code's transactions and critical sections; a theorem about a
protocol quantifies over every list of steps. Beside what never happens the
theorems say what does: who is admitted, what is applied, granted, delivered
or refused, and when exactly. Code that works in place is a
class or a loop, proved equal to a function the theorems are about.

`dafny verify dfyconfig.toml` checks the whole project.

| component | modules |
|---|---|
| bytes, frames, hex, decimal | `Bytes` |
| restart recovery of one effect intent | `EffectStates`, `EffectRecovery`, `RecoveryInvariants`, `RecoveryRuns`, `RecoveryTheorems`, `RecoveryPushes`, `RecoveryProgress`, `RecoveryOutcomes`, `RecoveryStore` |
| one-use permits | `KernelPermits` |
| command identity | `Commands` |
| event replay and stream | `EventStream`, `StreamProgress` |
| Merkle tree, audit batches, chains | `Merkle`, `MerkleRoots`, `AuditBatch`, `AuditRoots`, `AuditChain` |
| chunked decoder, bounded line reader | `ChunkedDecoder`, `BoundedLines` |
| schema bundle | `SchemaBundle` |
| state machine paths | `Paths` |
| graph deltas | `GraphDelta`, `GraphReplay`, `GraphEvaluation`, `GraphCommands`, `PackageStages` |
| context capsules | `ContextCapsules`, `CapsuleSets` |
| writer leases | `WriterLease`, `WriterLeaseRuns`, `LeaseGrants`, `AttemptStages`, `LeaseStore` |

Conventions. A digest is a parameter: any function from bytes to 32 bytes.
Where a result needs collision freedom it is required only of the finite set
of inputs that were hashed, so the premise can hold. An operation refused by
the code is a step that changes nothing, or exactly what the code changed
before refusing.

What the proofs turned up:

- Ownership of a reserved retry is checked when the claim is read back, not
  when the push is sent, so a replaced owner can still push
  (`RecoveryTheorems.PushMayOutliveOwnership`). The owner still owns its claim
  at the push exactly when no step since its clearance wrote a claim row and
  the authority is current (`RecoveryPushes.StillOwnedIff`).
- The documented single push of a reservation is single per clearance: a
  crashed executor may be cleared and push again
  (`RecoveryTheorems.ReservedRetryMayBePushedTwice`). Pushes never outnumber
  clearances, all of which fall in the reserved phase
  (`RecoveryPushes.SecondPushNeedsSecondClearance`), and once that phase is
  over only executors already cleared can push
  (`RecoveryPushes.NoPushAfterTheReservedPhase`). While it lasts, with the ref
  absent and the intent in step with its claim, an executor can always be
  cleared and push (`RecoveryPushes.ReservedPhaseCanPush`). The create-only ref takes one
  value throughout.
- Repeating an applied request returns the stored claim, except for an
  invalidation of a claim whose retry was reserved: that replay is refused
  (`RecoveryTheorems.ReplayReturnsTheClaim`).
- A reservation request that carries a containment reason passes request
  validation and is refused by the table's own check
  (`RecoveryInvariants.UpdatedRow`).
- A delta command answers a repeat from its record, applied or refused
  (`GraphCommands.RepeatReturnsTheFirst`); a delta refused once stays refused.
  Only an overwrite of that very record, which the ledger also offers, can
  have it applied again (`GraphCommands.OverwriteReapplies`).
  The record is needed: a bare second evaluation is a no-op exactly when the
  delta names each subject once or leads back to where it began
  (`GraphReplay.ReplayIsNoOpIff`, with `GraphReplay.BareReevaluationConflicts`
  as the smallest failure).
- On a graph that repeats a package id, every capsule set the validator
  accepts contains a capsule of a package outside the graph
  (`CapsuleSets.RepeatedIdsAdmitForeign`). Accepted sets exist exactly for
  owned graphs whose repeated ids carry equal content
  (`CapsuleSets.AcceptableIff`).
- If an update finishes the attempt that holds a lease, which the ledger
  admits from every reachable state, the lease row can never be removed and
  its variant is never granted again (`WriterLeaseRuns.UpdateBlocksForGood`).
  Reclaim frees a variant exactly when its holder did not finish itself
  (`WriterLeaseRuns.ReclaimExactly`), and then an expired lease gives way to the
  next request (`WriterLeaseRuns.ExpiredGivesWay`).
- The Merkle root alone does not fix the leaves: lists of one height share a
  root exactly when they widen to the same perfect tree
  (`MerkleRoots.SameRootIff`), and for event leaves the heights follow
  (`AuditRoots.SameEventRootIff`). The batch range fixes the count, and with it the
  leaves (`AuditBatch.BatchBinds`).

## Model

| member | source | states |
|---|---|---|
| `Bytes.UnframeAllFrameAll` | crates/application/src/commands.rs:259-262 | any list of fields is read back from its length-prefixed framing |
| `Bytes.FrameAllInjective` | crates/application/src/commands.rs:259-262 | no other list of fields, of any length, has the same framing |
| `Bytes.BuildFrames` | apps/bullet-farmd/src/kernel_authority.rs:406-426 | the loop that grows the hashed buffer builds exactly the framing of its fields |
| `Bytes.FrameTextCancel` | crates/application/src/audit_batch/merkle.rs:245-253 | an optional column's framing can be cut off the front in one way only, absent and empty kept apart |
| `EffectStates.TerminalAbsorbs` | crates/application/src/effect_state.rs:61-111 | every walk from a terminal effect state stays there |
| `RecoveryStore.EffectRecoveryStore.ClaimEffectRecovery` | crates/adapters/src/sqlite/effect_recovery/read.rs:19-112 | the claim transaction commits exactly the rows and answer of the admission function, or leaves every row; it hands out a claim exactly to the owner and to whoever may claim |
| `RecoveryStore.EffectRecoveryStore.ReadbackEffectRecovery` | crates/adapters/src/sqlite/effect_recovery/read.rs:114-126 | readback answers the one active claim, only to its current owner, and writes nothing |
| `RecoveryStore.EffectRecoveryStore.ApplyEffectRecovery` | crates/adapters/src/sqlite/effect_recovery/transitions.rs:13-78 | the apply transaction moves claim, intent, outbox and event log together, drops a stale claim, or leaves every row; the owner's request is applied exactly when admissible |
| `RecoveryStore.EffectRecoveryStore.CountEvents` | crates/adapters/src/sqlite/effect_recovery/transitions.rs:187-209 | counts the retained events equal to a request |
| `RecoveryStore.EffectRecoveryStore.MoveAuthority` | db/migrations/0023_effect_recovery_claims.sql:581-661 | an authority change that unseats the active claim invalidates it in the same transaction |
| `RecoveryInvariants.AdmitKeeps` | crates/adapters/src/sqlite/effect_recovery/read.rs:19-112 | admission keeps the claim-row, event-log, reservation and budget invariants |
| `RecoveryInvariants.ApplyKeeps` | crates/application/src/effect_recovery/validation.rs:315-404 | applying any request keeps them |
| `RecoveryInvariants.MoveKeeps` | db/migrations/0023_effect_recovery_claims.sql:581-661 | every authority change keeps them |
| `RecoveryProgress.AdmitsExactly` | crates/adapters/src/sqlite/effect_recovery/read.rs:19-112 | a claim is answered exactly to the last row's owner, which is that row, and to a lease-holding successor of an unowned, unresolved intent, which is the next generation in the inherited phase over the vacated rows |
| `RecoveryProgress.AdmitRefusals` | crates/adapters/src/sqlite/effect_recovery/read.rs:19-112 | when admission answers conflict, no work, stale authority and a spent budget, each exactly |
| `RecoveryProgress.AppliesExactly` | crates/application/src/effect_recovery/validation.rs:315-404 | the owner's request is applied exactly when it speaks for the owner's row and carries the readback its disposition asks for, phase by phase, and leaves the stated row, intent state, outbox and log |
| `RecoveryProgress.StaleIsDropped` | crates/adapters/src/sqlite/effect_recovery/transitions.rs:13-78 | the same request after the authority moved on invalidates the claim and is told so |
| `RecoveryProgress.OutOfStepIsRefused` | crates/adapters/src/sqlite/effect_recovery/transitions.rs:13-78 | a row out of step with its intent answers nobody |
| `RecoveryProgress.RetryNeedsAbsence` | crates/application/src/effect_recovery.rs:223-240 | the reserved retry is allowed exactly to the owner of a reserved row who read the ref as absent |
| `RecoveryProgress.MoveUnseats` | db/migrations/0023_effect_recovery_claims.sql:581-661 | an authority change drops the owner's row exactly when epochs or revision move, restore is pending or the lease is not the owner's any more |
| `RecoveryTheorems.ReadbackIsExact` | crates/adapters/src/sqlite/effect_recovery/read.rs:114-126 | when readback answers the claim, nothing, conflict and stale authority, each exactly |
| `RecoveryRuns.RunKeeps` | crates/effects/src/recovery.rs:59-309 | any interleaving of executors, crashes, broker and authority moves, foreign writes and late pushes keeps the system invariant |
| `RecoveryTheorems.RecoveryIsSafe` | crates/application/src/effect_recovery.rs:242-274 | in every run claim rows are valid, generations count up, all but the last are invalidated, retries stay at most one, at most four edges are applied and the ref is written at most once |
| `RecoveryTheorems.SettledTellsTheTruth` | crates/effects/src/recovery.rs:218-248 | adopted means the ref holds the desired value and orphaned that it holds another, at every moment of every run |
| `RecoveryTheorems.RefIsWriteOnce` | crates/effects/src/local.rs:76-108 | a value in the ref is never overwritten in any continuation |
| `RecoveryPushes.ClearanceIsExact` | crates/effects/src/recovery.rs:154-182 | in every reachable state an executor about to retry is cleared if and only if the last row is its own claim, current and reserved, and then it holds that row |
| `RecoveryPushes.PushFollowsItsReadback` | crates/effects/src/recovery.rs:54-205 | every push follows, in one incarnation of its executor, its own absent readback with that claim in hand and then the clearance that found the claim last, current and reserved |
| `RecoveryPushes.StillOwnedIff` | crates/effects/src/recovery.rs:168-190 | at the push the claim would still be read back if and only if no step since the clearance wrote a claim row and the authority is current |
| `RecoveryPushes.SecondPushNeedsSecondClearance` | crates/effects/src/recovery.rs:54-58 | pushes never outnumber clearances, and every clearance falls in the reserved phase of the one reservation |
| `RecoveryPushes.NoPushAfterTheReservedPhase` | crates/effects/src/recovery.rs:99-152 | once the budget is spent and the reserved phase over, no continuation clears an executor and further pushes are at most those already cleared |
| `RecoveryPushes.ReservedPhaseCanPush` | crates/effects/src/recovery.rs:59-205 | from every reachable state whose last row is reserved, current and in step with its intent while the ref is absent, one incarnation of any executor is cleared and pushes |
| `RecoveryOutcomes.ReadbackDecides` | crates/effects/src/recovery.rs:59-97 | from every reachable state one incarnation of an admitted executor adopts a ref that holds the desired value and orphans any other, intent included |
| `RecoveryOutcomes.AbsenceDecides` | crates/effects/src/recovery.rs:99-205 | an absent ref is quarantined when the retry is spent; otherwise the retry is reserved, cleared and pushed, and the intent is adopted if the push lands and quarantined if it is lost |
| `RecoveryOutcomes.BlindReadsContain` | crates/effects/src/recovery.rs:250-309 | a ref that cannot be read is recorded as unknown and contained at the second failure |
| `RecoveryTheorems.SettledIsFinal` | crates/application/src/effect_recovery.rs:262-273 | after adoption, orphaning or quarantine no step of any run touches a claim row |
| `RecoveryTheorems.EdgeIsRealised` | crates/adapters/src/sqlite/effect_recovery/transitions.rs:293-311 | each disposition edge is a path of legal effect edges |
| `RecoveryTheorems.RunRefinesEffectMachine` | crates/application/src/effect_state.rs:61-111 | one walk of legal effect edges visits every intent state of a run, in order |
| `RecoveryTheorems.CommitPassesVerified` | crates/application/src/effect_state.rs:61-111 | on every such walk the effect is verified between an uncommitted moment of the run and a later committed one |
| `RecoveryTheorems.RetriesAreCounted` | crates/adapters/src/sqlite/effects.rs:227-248 | along every run the retry count rises by one for each reservation and each redispatch of the broker, and by nothing else |
| `RecoveryTheorems.AppliedOnce` | crates/adapters/src/sqlite/effect_recovery/transitions.rs:187-209 | an applied request is in the event log exactly once |
| `RecoveryTheorems.ReplayReturnsTheClaim` | crates/adapters/src/sqlite/effect_recovery/transitions.rs:141-185 | a repeated request changes nothing and returns the stored claim, if and only if it did not invalidate a reserved claim |
| `RecoveryTheorems.PushMayOutliveOwnership` | crates/effects/src/recovery.rs:154-205 | a concrete run in which an invalidated owner's push is sent |
| `RecoveryTheorems.ReservedRetryMayBePushedTwice` | crates/effects/src/recovery.rs:154-205 | a concrete run with one reservation and two pushes of it |
| `KernelPermits.KernelAuthority.MintPermit` | apps/bullet-farmd/src/kernel_authority.rs:114-188 | a mint reserves one fresh row for its own request, or is refused and leaves the rows |
| `KernelPermits.KernelAuthority.Find` | apps/bullet-farmd/src/kernel_authority.rs:230-249 | the lookup finds an unspent row of the request if there is one |
| `KernelPermits.KernelAuthority.Spend` | apps/bullet-farmd/src/kernel_authority.rs:257-270 | consuming marks exactly one present, unspent row |
| `KernelPermits.KernelAuthority.Check` | apps/bullet-farmd/src/kernel_authority.rs:191-294 | a check alone spends one verified unspent reservation of its request, is granted whenever the fingerprint agrees and the matching reservations verify, and otherwise leaves the rows |
| `KernelPermits.FingerprintBinds` | apps/bullet-farmd/src/kernel_authority.rs:406-426 | equal fingerprints mean equal operation, authority and parameter bytes |
| `KernelPermits.PermitsAreOneUse` | apps/bullet-farmd/src/kernel_authority.rs:168-184 | under every interleaving of any number of callers an id is minted once, consumed by one success after its mint, and no reservation is ever found gone |
| `KernelPermits.LookupIsUnique` | apps/bullet-farmd/src/kernel_authority.rs:230-249 | at most one reservation matches a lookup |
| `KernelPermits.MutationIdBinds` | apps/bullet-farmd/src/kernel_authority.rs:131-135 | requests share a mutation id exactly when call and attempt are the same |
| `KernelPermits.MintsExactly` | apps/bullet-farmd/src/kernel_authority.rs:114-188 | after any run a mint is granted exactly when its lease agrees and nothing was issued for the same call and attempt |
| `KernelPermits.PermitCanBeUsed` | apps/bullet-farmd/src/kernel_authority.rs:191-294 | after any run a granted permit that is not consumed can be looked up, verified and consumed |
| `Commands.CommandDigest` | crates/application/src/commands.rs:94-102 | the digest is that of the framed domain, kind and payload |
| `Commands.DigestBinds` | crates/application/src/commands.rs:94-102 | equal command digests mean equal kind and payload |
| `Commands.MatchIsKeyAndDigest` | crates/application/src/commands.rs:176-188 | a consistent record answers exactly the requests with its key and digest |
| `EventStream.ValidateBatch` | apps/bullet-farmd/src/api.rs:375-393 | accepts exactly the valid events right after the cursor, without gap, and names the first one's fault |
| `EventStream.ReplayPreflight` | apps/bullet-farmd/src/api.rs:312-367 | succeeds exactly when cursor, window and every event up to the latest are good, and then buffers precisely those events; says when it is ahead, cut off or too far |
| `EventStream.CursorRoundTrip` | apps/bullet-farmd/src/api.rs:262-310 | a printed sequence is read back as the same cursor from the query and from the header |
| `EventStream.CursorIsExact` | apps/bullet-farmd/src/api.rs:262-310 | a request has a cursor exactly when it names one once, by one route, in digits of a 64-bit number, or names none |
| `EventStream.ConflictNamesTwo` | apps/bullet-farmd/src/api.rs:262-310 | a conflict is reported only to requests that name two cursors, and to all readable ones that do |
| `EventStream.Stream.Turn` | apps/bullet-farmd/src/api.rs:413-453 | one turn of the stream loop, as a function of its state and the log it finds |
| `EventStream.StreamIsGapless` | apps/bullet-farmd/src/api.rs:413-453 | over every interleaving of appends, removals and turns the frames carry the events right after the cursor in order, and framing never fails |
| `EventStream.ReconnectContinues` | apps/bullet-farmd/src/api.rs:464-480 | reconnecting with the printed id of the last frame received, short of the last sent or not, continues the same stream without gap or repeat |
| `StreamProgress.StaysOpenIff` | apps/bullet-farmd/src/api.rs:413-453 | a turn leaves the stream open exactly when it is permitted and something is buffered, or the log can be read and goes on without a gap |
| `StreamProgress.RevocationEnds` | apps/bullet-farmd/src/api.rs:413-453 | once a turn finds the permission gone no frame follows in any continuation |
| `StreamProgress.CatchesUp` | apps/bullet-farmd/src/api.rs:413-453 | on a log that stays as it is two permitted turns an event deliver the whole rest, once and in order |
| `StreamProgress.StreamCatchesUp` | apps/bullet-farmd/src/api.rs:413-453 | after any run, if the log has every event after the cursor, enough permitted turns deliver all of them up to the latest |
| `Merkle.FromLeaves` | crates/application/src/audit_batch/merkle.rs:108-123 | the level loop builds the whole tree, whose top is the root |
| `Merkle.Prove` | crates/application/src/audit_batch/merkle.rs:155-180 | an in-range index gets its own siblings level by level, any other index none |
| `Merkle.VerifyInclusion` | crates/application/src/audit_batch/merkle.rs:189-225 | accepts exactly an in-range index with a tree's worth of siblings that climb to the root, and says which of these fails |
| `Merkle.TreeHeight` | crates/application/src/audit_batch/merkle.rs:228-236 | the halving loop counts the levels above the leaves |
| `Merkle.RootBinds` | crates/application/src/audit_batch/merkle.rs:108-132 | with equal leaf counts, equal roots mean equal leaves |
| `MerkleRoots.RootOfFull` | crates/application/src/audit_batch/merkle.rs:108-123 | the self-paired last nodes amount to widening the leaves to a perfect tree |
| `MerkleRoots.SameRootIff` | crates/application/src/audit_batch/merkle.rs:108-132 | leaf lists of one height share a root if and only if they widen to the same perfect tree |
| `MerkleRoots.FullBinds` | crates/application/src/audit_batch/merkle.rs:108-132 | with equal counts, equal widenings mean equal leaves |
| `MerkleRoots.DuplicateLastLeaf` | crates/application/src/audit_batch/merkle.rs:108-123 | repeating the last of an odd number of leaves above one widens to the same tree |
| `Merkle.ProofIsAccepted` | crates/application/src/audit_batch/merkle.rs:155-225 | every leaf's own proof has the right length and climbs to the root |
| `Merkle.ProofBinds` | crates/application/src/audit_batch/merkle.rs:189-225 | whatever siblings it carries, an accepted proof proves the leaf at its index |
| `AuditBatch.EventBytesBind` | crates/application/src/audit_batch.rs:207-221 | no column of an event can be altered, dropped or moved without changing the hashed bytes |
| `AuditBatch.ContiguousRange` | crates/application/src/audit_batch.rs:421-442 | the two loops decide emptiness, order and gaps, order taking precedence |
| `AuditBatch.VerifiedIsBuilt` | crates/application/src/audit_batch.rs:231-267 | a batch verifies if and only if its previous root is well formed and the builder makes exactly it from that root and the events |
| `AuditBatch.BatchBinds` | crates/application/src/audit_batch.rs:231-267 | one batch record verifies with one list of events only |
| `AuditBatch.TamperingIsReported` | crates/application/src/audit_batch.rs:231-267 | a lost tail, head or middle row, rows out of order and other events in the range are each reported as what they are |
| `AuditBatch.AlteredRecordIsReported` | crates/application/src/audit_batch.rs:231-267 | so is every altered column of a verified record |
| `AuditRoots.HeightsMeet` | crates/application/src/audit_batch/merkle.rs:64-132 | trees of different heights share a root only if the lower one's first leaf is an inner node of the higher |
| `AuditRoots.BareHeightsMeet` | crates/application/src/audit_batch/merkle.rs:73-123 | for bare digests that happens: a node's own digest as the only leaf |
| `AuditRoots.SameEventRootIff` | crates/application/src/audit_batch/merkle.rs:64-132 | lists of events of any lengths share a batch root if and only if they widen to the same perfect tree |
| `AuditBatch.BatchIdBinds` | crates/application/src/audit_batch.rs:465-473 | equal batch ids mean equal link, root and range |
| `AuditBatch.ProveEvent` | crates/application/src/audit_batch.rs:346-354 | a proof is issued exactly for a sequence inside a verified batch, and the inclusion verifier accepts it |
| `AuditBatch.VerifyEventInclusion` | crates/application/src/audit_batch.rs:363-382 | accepts exactly a well-formed record with a proof for the event's own position that climbs to its root |
| `AuditBatch.InclusionBinds` | crates/application/src/audit_batch.rs:363-382 | an event accepted against a verified batch is the event at that position |
| `AuditChain.VerifyChainFrom` | crates/application/src/audit_batch.rs:289-336 | accepts exactly the chains whose every batch verifies and continues root and sequence, returns the head, and reports the first batch's error otherwise |
| `AuditChain.VerifyChain` | crates/application/src/audit_batch.rs:277-282 | the same from the genesis root |
| `AuditChain.ChainJoins` | crates/application/src/audit_batch.rs:289-336 | a concatenation is accepted if and only if both parts are, the second from the first's head root and right after its last sequence |
| `AuditChain.ExtensionIsExact` | crates/application/src/audit_batch.rs:289-336 | a verified batch extends an accepted chain if and only if it links to the head and follows on; otherwise the refusal is the link, the order or the gap |
| `AuditChain.ChainIsOneRun` | crates/application/src/audit_batch.rs:289-336 | accepted leaf sets join into one gap-free run from the first to the last committed sequence |
| `AuditChain.BuildHolds` | crates/application/src/audit_batch.rs:136-191 | over every cut of a gap-free run into non-empty segments the folded builder succeeds and its chain is accepted |
| `AuditChain.ChainIsBuilt` | crates/application/src/audit_batch.rs:289-336 | accepted chains are exactly those folded builds |
| `AuditChain.ChainBinds` | crates/application/src/audit_batch.rs:289-336 | the batch records alone fix every event of the chain |
| `ChunkedDecoder.Position` | apps/bullet-mcpd/src/client.rs:293-296 | the scan finds the first CRLF |
| `ChunkedDecoder.SpellsExactly` | apps/bullet-mcpd/src/client.rs:297-301 | a size is spelled exactly by the positional hexadecimal digits of its number, in either case, leading zeros allowed |
| `ChunkedDecoder.DecodeChunked` | apps/bullet-mcpd/src/client.rs:290-322 | the loop computes the decoding function, every slice in bounds |
| `ChunkedDecoder.EncodingDecodes` | apps/bullet-mcpd/src/client.rs:290-322 | every encoding of non-empty chunks that fit decodes to their concatenation, for any spelling of the sizes |
| `ChunkedDecoder.DecodesExactly` | apps/bullet-mcpd/src/client.rs:290-322 | an input decodes to a body if and only if it is an encoding of that body and the body fits |
| `ChunkedDecoder.EncodingIsUnique` | apps/bullet-mcpd/src/client.rs:290-322 | encodings are prefix-free and each has one reading |
| `ChunkedDecoder.NothingFollows` | apps/bullet-mcpd/src/client.rs:302-309 | no accepted input is a proper prefix of another |
| `BoundedLines.Scan` | apps/bullet-mcpd/src/transport.rs:59-72 | the byte loop counts on from the unfinished line, or refuses |
| `BoundedLines.CountFollows` | apps/bullet-mcpd/src/transport.rs:59-72 | counting refuses exactly when the longer stream has an over-long line, and otherwise yields its unfinished length |
| `BoundedLines.BoundedReader.PollRead` | apps/bullet-mcpd/src/transport.rs:39-80 | one poll as a function of counter, stream, caller buffer and inner answer; an inner wait or failure is passed on and changes nothing |
| `BoundedLines.ReaderIsExact` | apps/bullet-mcpd/src/transport.rs:39-80 | for every stream, split of reads and buffer sizes: delivery is the consumed prefix up to a refusal, refusal means an over-long line was consumed, and at most the limit and one byte are held back |
| `BoundedLines.RefusalIsTheStreams` | apps/bullet-mcpd/src/transport.rs:39-80 | a stream whose lines fit is never refused and arrives whole; one with an over-long line is refused before it is used up |
| `SchemaBundle.RefsFail` | apps/bullet/src/contracts.rs:187-208 | collecting fails exactly on a malformed reference somewhere in the document |
| `SchemaBundle.RefsExact` | apps/bullet/src/contracts.rs:187-208 | the collected names are exactly those the references point at |
| `SchemaBundle.RewriteIsExact` | apps/bullet/src/contracts.rs:210-231 | rewriting succeeds exactly when collecting does, can be undone, and points at the same names in order |
| `SchemaBundle.RuntimeSchemaNames` | apps/bullet/src/contracts.rs:166-179 | the worklist ends with exactly the reachable names, and fails exactly when one is absent or holds a malformed reference |
| `SchemaBundle.RuntimeSchema` | apps/bullet/src/contracts.rs:149-164 | the bundle holds the reachable schemas changed in their references only, and every reference in it resolves inside it |
| `GraphDelta.EvaluateGraphDelta` | crates/application/src/graph_delta.rs:246-261 | the op loop computes the evaluation function, first error included, and changes a graph only under its own digest |
| `GraphDelta.ApplySets` | crates/application/src/graph_delta.rs:263-304 | an op sets its own subject and no other |
| `GraphDelta.OrderDoesNotMatter` | crates/application/src/graph_delta.rs:246-304 | with distinct subjects any reordering succeeds alike and gives the same graph |
| `GraphDelta.EvaluationOrderDoesNotMatter` | crates/application/src/graph_delta.rs:246-317 | so does the evaluation of the delta |
| `GraphEvaluation.EvaluatesExactly` | crates/application/src/graph_delta.rs:246-317 | on unique ids a delta is accepted if and only if its targets are in place, or the parent digest agrees and every op is legal on the value it finds; then every subject holds its last target |
| `GraphEvaluation.ChangeNeedsTheParent` | crates/application/src/graph_delta.rs:250-255 | no graph is changed by a delta made for another one |
| `GraphEvaluation.RefusedFor` | crates/application/src/graph_delta.rs:246-304 | a delta is refused for its parent first, and then for the first op that does not fit, with that op's error |
| `GraphReplay.Outcome` | crates/application/src/graph_delta.rs:246-304 | every named subject started at its first expectation and ends at its last target, every other is untouched |
| `GraphReplay.InPlaceIff` | crates/application/src/graph_delta.rs:306-317 | after success all targets are in place if and only if no subject is named twice, full fences apart |
| `GraphReplay.LoopsIff` | crates/application/src/graph_delta.rs:246-304 | the graph is unchanged if and only if every named subject ends where it started |
| `GraphReplay.ReplayIsNoOp` | crates/application/src/graph_delta.rs:246-261 | with distinct subjects evaluating again returns the same graph |
| `GraphReplay.ReplayIsNoOpIff` | crates/application/src/graph_delta.rs:246-317 | on unique ids, evaluating again is a no-op if and only if subjects are named once or the delta leads back |
| `GraphReplay.BareReevaluationConflicts` | crates/application/src/graph_delta.rs:246-317 | two bumps of one fence evaluate once, and a bare second evaluation conflicts |
| `GraphCommands.GraphLedger.ApplyGraphDelta` | crates/application/src/memory/mod.rs:134-224 | a delta command answers from its record, or evaluates once and commits graph, event and record together |
| `GraphCommands.RunKeeps` | crates/application/src/memory/mod.rs:134-224 | every run of delta commands, pending and reconciled records, graph writes and overwrites of other records keeps a record's delta and outcome |
| `GraphCommands.RepeatReturnsTheFirst` | crates/application/src/graph_delta.rs:225-239 | after any run a repeated delta gets its first answer, applied or refused, and changes nothing; another mission is refused an applied one |
| `GraphCommands.AppliedAtMostOnce` | crates/application/src/graph_delta.rs:225-239 | no delta is applied twice along any run that does not overwrite its record |
| `GraphCommands.OverwriteReapplies` | crates/application/src/memory/commands.rs:206-224 | a record put back to pending lets its delta be logged a second time |
| `GraphCommands.GraphIsTheFold` | crates/application/src/memory/mod.rs:134-224 | along every run the event log is exactly the applied deltas, and a mission's graph is the first one with its logged deltas evaluated in order |
| `GraphCommands.LedgerFencesNeverDrop` | crates/application/src/memory/mod.rs:134-224 | so no run of commands lowers a fence of a graph that nothing else writes |
| `GraphReplay.FenceRises` | crates/application/src/graph_delta.rs:281-301 | a fence rises by exactly the bumps naming it, up to the 64-bit maximum |
| `GraphReplay.FencesNeverDrop` | crates/application/src/graph_delta.rs:246-261 | no run of evaluations, accepted, replayed or refused, lowers a fence |
| `GraphReplay.ClosedForGood` | crates/domain/src/states.rs:187-231 | a package in a state without exits keeps it in every run |
| `PackageStages.RunReaches` | crates/domain/src/states.rs:187-231 | along every run of deltas a package moves on a path of legal edges |
| `PackageStages.NoStageIsSkipped` | crates/domain/src/states.rs:187-231 | however it got there, an integrated package went through every stage, among them verified, reviewed and cleared, in order |
| `PackageStages.EveryStateIsReachable` | crates/domain/src/states.rs:187-231 | every package state can be reached from pending |
| `ContextCapsules.InitialCapsules` | crates/application/src/context.rs:142-157 | derives one capsule a package exactly when ids are distinct, packages owned and the time valid |
| `ContextCapsules.ValidateInitialContextSet` | crates/application/src/context.rs:165-199 | accepts exactly valid capsules of distinct packages, as many as the graph's, that answer each package; each is then the sealing of its own content |
| `CapsuleSets.AcceptsExactly` | crates/application/src/context.rs:142-199 | on owned packages with distinct ids the accepted lists are the reorderings of the derived set with valid times |
| `CapsuleSets.RepeatedIdsAdmitForeign` | crates/application/src/context.rs:165-199 | on a graph that repeats an id every accepted set holds a foreign capsule |
| `CapsuleSets.AcceptedNeedsEqualRepeats` | crates/application/src/context.rs:165-199 | a graph with an accepted set owns its packages and its repeated ids carry equal content |
| `CapsuleSets.StrangersAccepted` | crates/application/src/context.rs:165-199 | and on every such graph one capsule an id, filled up with valid strangers of different packages, is accepted |
| `CapsuleSets.AcceptableIff` | crates/application/src/context.rs:165-199 | a graph has an accepted set if and only if it owns its packages and repeats an id only with equal content |
| `CapsuleSets.BuildGraph` | crates/application/src/materializer.rs:141-185 | the loop gives every package its seeded id and the graph's mission and plan |
| `CapsuleSets.MaterializedIsExact` | crates/application/src/materializer.rs:141-185 | a materialized graph owns its packages under distinct ids, so the validator is exact on it and accepts the derivation's output |
| `LeaseStore.LeaseLedger.AcquireLease` | crates/application/src/memory/authority.rs:107-262 | acquisition replays a stored grant whose package and context stand, reclaims an expired holder, refuses, or commits one grant under the next fence; a new command is granted exactly when its variant is available, and the grant names the request's own fields |
| `LeaseStore.LeaseLedger.ReclaimLease` | crates/application/src/memory/authority/reclaim.rs:31-81 | reclaim crashes a live holder, frees the variant and requeues its package, reporting an unlisted package after the fact, or leaves the ledger |
| `LeaseStore.LeaseLedger.HeartbeatLease` | crates/application/src/memory/authority.rs:264-302 | accepted exactly from an unexpired lease's live holder on the granted terms; renews the window and nothing else |
| `LeaseStore.LeaseLedger.ExpireLeases` | crates/application/src/memory/authority.rs:304-312 | due leases are reclaimed in order up to the first refusal |
| `LeaseStore.LeaseLedger.ReleaseLease` | crates/application/src/memory/authority.rs:314-363 | frees the variant exactly for the holder in a state that may finish, requeues on request, confirms a repeat; keeps the ledger's invariant |
| `LeaseStore.LeaseLedger.StoreAttempt` | crates/application/src/memory/authority.rs:365-393 | an update keeps identity columns and moves state along a legal edge, or is refused |
| `WriterLeaseRuns.RunKeeps` | crates/application/src/memory/authority.rs:107-393 | every run keeps lease and attempt rows bound, live attempts to holders only, finished attempts finished, and fences from dropping |
| `WriterLeaseRuns.OneWriter` | crates/application/src/authority.rs:61-104 | two subjects of a variant that pass at different moments of a run are one attempt under one fence, or the later has the higher fence, the earlier attempt is over, and no subject naming it passes in any continuation |
| `WriterLeaseRuns.FencesIncrease` | crates/application/src/conformance.rs:153-166 | fences of a variant's grants strictly increase, and every grant but the last has stopped passing |
| `WriterLeaseRuns.FinishedForGood` | crates/application/src/conformance.rs:63-132 | once an attempt is finished no subject naming it ever passes again |
| `WriterLeaseRuns.LosesForGood` | crates/application/src/conformance.rs:63-132 | once a variant's lease row is gone or in other hands, no subject naming its former holder passes in any continuation |
| `WriterLeaseRuns.HeartbeatMovesNobody` | crates/application/src/conformance.rs:168-192 | after any run a heartbeat leaves every subject's standing, and an accepted one puts the expiry its full term ahead |
| `WriterLeaseRuns.GrantReplays` | crates/application/src/memory/authority.rs:114-132 | a granted command repeated after any run changes nothing and answers the first grant while its package is listed; another request under its key is refused |
| `WriterLeaseRuns.ExpiryIsExact` | crates/application/src/memory/authority/reclaim.rs:18-28 | expiry without a refusal removes exactly the expired leases it was handed |
| `WriterLeaseRuns.StuckForGood` | crates/application/src/memory/authority/reclaim.rs:36-52 | a lease whose holder finished itself is there forever and blocks its variant |
| `WriterLeaseRuns.UpdateBlocksForGood` | crates/application/src/memory/authority.rs:365-393 | from any reachable state one update that finishes the holder blocks the variant for good |
| `WriterLeaseRuns.ExpiredGivesWay` | crates/application/src/memory/authority.rs:137-141 | from any reachable state whose holder is not over, a request after the expiry is granted under the next fence |
| `WriterLeaseRuns.ReclaimExactly` | crates/application/src/memory/authority/reclaim.rs:31-81 | reclaim frees a variant if and only if its holder did not finish itself; the holder has then crashed, its package is requeued, and only an unlisted package is an error |
| `LeaseGrants.GrantsExactly` | crates/application/src/memory/authority.rs:107-262 | a new command is granted if and only if its variant is known, its package waits and nobody holds it, or an expired holder that is not over gives the package back |
| `LeaseGrants.GrantServes` | crates/application/src/memory/authority.rs:178-262 | after any run the requester's own subject passes and its own heartbeat is accepted exactly until the granted term is over |
| `LeaseGrants.AcquireSparesOthers` | crates/application/src/memory/authority.rs:107-262 | an acquisition leaves the standing of every other variant's subjects |
| `LeaseGrants.ReleaseRepeats` | crates/application/src/memory/authority.rs:314-363 | a release repeated after any run changes nothing: confirmed while the variant is free, stale once it is held again |
| `LeaseGrants.UpdateIsStored` | crates/application/src/memory/authority.rs:365-393 | an update is stored exactly when it keeps identity and moves along a legal edge, and decides the standing of its own lease's subjects only |
| `LeaseGrants.ExpirySucceedsIff` | crates/application/src/memory/authority.rs:304-312 | expiry is refused if and only if an expired lease handed to it has a holder that finished itself or an unlisted package |
| `AttemptStages.StatesArePath` | crates/domain/src/states.rs:267-300 | along every run each step moves an attempt along one legal edge or not at all |
| `AttemptStages.SuccessIsEarned` | crates/domain/src/states.rs:267-300 | a granted attempt that succeeds was running after some step and preparing after a later one |
| `AttemptStages.EveryStateIsReachable` | crates/domain/src/states.rs:267-300 | every state but the first is within a granted attempt's reach |

## Left out

- Shape checks of recovery records (id and object-id syntax, token fingerprints, safe-integer limits, time syntax) and the terminal lineage audit: field-by-field tests with no interplay.
- The broker's own path: it is any legal effect edge taken between recovery steps.
- Permit signing and verification: an arbitrary verdict between the two critical sections.
- `KernelAuthority::settle`: it echoes ids.
- KernelPermits.MutationIdBinds: asks that operation labels have no colon, because parsing them against the fixed label list is not modelled; no label of that list has one.
- Error messages and payloads: errors are kinds, or a refusal alone where the code has one kind.
- 64-bit overflow at the very top: audit sequences equal to the maximum plus one, and counters near the maximum, are plain numbers here; fence saturation and the cursor maximum are modelled.
- BoundedLines.Scan: the counter is a plain number; the code's saturating addition differs only at a limit of the machine maximum.
- Collision freedom: required of the inputs hashed, never of a fixed hash function.
- In-place editing of a JSON tree: rewriting builds a new tree; mapping keys are strings, and array items carry an unused key.
- JSON, YAML and RFC 3339 syntax: documents are trees, canonical encodings are functions, times are numbers or a validity predicate.
- SQLite statements: a transaction is one atomic step, with the table's checks and triggers as predicates.
- Lease requests name their attempt id directly rather than by seed, one graph stands for all missions, and initial context rows are taken as valid.
- The lease ledger's injected failures, events and outbox rows.
- HTTP routing, sessions, terminal interface, command line, sockets, file custody, sandbox and provider processes.
- Generated contract records, label tables and budget arithmetic.
