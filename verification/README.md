# Yukh Coordination in Dafny

A model of the parts of Yukh Coordination whose correctness is hardest to see from the code, and proofs of what they promise:

- **Audit tree** (`Merkle`, `MerkleInclusion`, `MerkleConsistency`): the RFC 9162 tree, its recursive proof builders and its bit-shifting verifiers. The bit walk is proved to be the climb along the tree, and from that completeness and soundness of both proofs. The node hash is an arbitrary function; soundness says that the claim holds or that two of the preimages actually hashed collide.
- **Relay log** (`RelayStore`, `RelayReducer`, `RelayLog`, `RelayProtocol`, `RelayAnswers`, `RelayService`): the tenant reducer, replay, and the compare-and-swap protocol of many writers on one log, where a publish may commit although it reports an error, at any later time. Theorems are about every run; `RelayAnswers` says exactly when a call publishes and what each failure reports.
- **Leases and capability budget** (`Coordination`, `LeaseProtocol`, `MemoryStore`, `KvStore`, `LeaseClient`, `LeaseRefinement`, `BudgetSlots`, `MemoryBudget`, `KvBudget`, `BudgetRefinement`, `PrimitivesService`, `ServiceEffects`, `ServiceAnswers`, `CapabilitySaga`): the key-value lease protocol under ambiguous writes; the key-value stores compared with their in-memory twins, up to whole sequences of service requests; exactly when each request succeeds and how it fails otherwise; and the reserve, acquire, seal, commit saga run by many callers with failures at every step.
- **Progress** (`ProtocolProgress`): from every reachable state of the concurrent protocols, a call that nothing disturbs gets done.
- **Projection engine** (`Projection`, `ProjectionInvariant`, `ProjectionEngine`, `ProjectionHistory`, `ProjectionAnswers`, `ProjectionRefusals`): the claim and handoff state machine, its invariants over every replay, and independence of the order of records. The state is proved to be a reading of the records replayed, and from that what a report says and which record is refused with which code.
- **Backup recovery** (`BackupRecovery`, `BackupAnswers`): the receipt classifier and the completion check, and what their answers mean over receipts and verdicts alone.
- **Proof replay store** (`ProofReplay`): the reservation transaction and the acceptance window of section 11.1 of RFC 9449.
- **Workload codecs** (`WireFormat`, `WorkloadCodec`, `SessionCodec`): length-prefixed printers and parsers.

Code that updates state in place is a class or a method with a loop, proved against a function or predicate; concurrent behaviour is a state machine over `World` values with an invariant kept by every step. Hashes, digests, name patterns and the verdict of a signature verifier are function parameters, so that nothing is assumed of them beyond being a function of their argument; one classification of backup evidence has one verifier, and theorems about several classifications let it change. Log commands stand for their own encoding, an exact inverse pair, and only whether a command fits the size limit is a parameter. Clocks, drawn tokens, sealing outcomes and faults are inputs of the step that uses them. `Options` and `Interop` hold what several modules share.

`dafny verify dfyconfig.toml` checks the project.

## Findings

- The budget bucket stores an unrounded pending expiry but reads back only whole milliseconds. `BudgetRefinement.ReserveIsReadableExactly` gives the exact condition and `UnalignedWedges` two inputs, one with a clock and one with a pending lifetime that is not whole milliseconds. From then on every operation of that principal fails (`WedgedForever`), until retention forgets the record. The refinement therefore asks of each operation that its pending expiry be readable, which an aligned clock and lifetime ensure (`AlignedIsReadable`).
- A stale lease handle can rejoin on the bucket store, not on the memory store, exactly when a newer record of the bytes it wants to write is stored (`LeaseRefinement.RenewAgreesExactly`, `ReleaseAgreesExactly`). Renewing twice to one expiry, or releasing twice, from one resumed handle is such an input (`StaleRenewRejoins`, `StaleReleaseRejoins`). Behind the service, which resumes first, this does not show.
- A session record may carry a key reference of up to 1024 bytes, but a session decodes only with at most 512 (`SessionCodec.DecodeInvertsEncodeExactly`, `LongReferenceIsLost`). The credential store never writes such a record: it saves only the signing key version of its associated data as reference, and every session it saves decodes (`SavedSessionsDecode`).
- Order of receipts matters to the backup classifier for a domain exactly when its verified receipts all share identifier and digest but not the verdict on outcome and deadline (`BackupRecovery.DomainIndependentExactly`). With a digest that tells receipts apart this cannot happen (`NoCollisionIsUnambiguous`); any two receipts that collide in this way are an input (`CollisionChangesStatus`).
- An incident is forever only as long as the verifier repeats its verdicts. When verification becomes unavailable, evidence already classified as an incident or as corrupt is classified as pending again (`BackupRecovery.OutageReopens`). `ChangedVerifierExactly` says when a changed verifier keeps the status for good, and `NeverResolved` that one which only adds verdicts always does.
- The 70-second retention is long enough because 60 + 5 < 70, and any retention up to that sum would not be (`ProofReplay.NeverAcceptedTwice`, `AcceptedTwiceOtherwise`).

## Model

| member | source | states |
|---|---|---|
| Merkle.LargestPowerLessThan | internal/relay/audit/merkle.go:194-196 | the bit-length shift yields the one power of two at which RFC 9162 splits a tree |
| Merkle.WalkIsClimb | internal/relay/audit/merkle.go:75-99 | shifting the two indices bit by bit folds a path exactly as climbing the recursive tree does, for every size, index and path |
| MerkleInclusion.BuildInclusionPath | internal/relay/audit/merkle.go:163-175 | appending through the buffer adds exactly the path of section 2.1.3.1 |
| MerkleInclusion.BuildInclusionProof | internal/relay/audit/merkle.go:66-73 | refuses exactly the sizes and indices out of range; every proof handed out is accepted for the true leaf and root |
| MerkleInclusion.VerifyInclusion | internal/relay/audit/merkle.go:75-99 | the loop accepts exactly when climbing the tree along the path from this leaf gives the root, within the size and node limits |
| MerkleInclusion.InclusionComplete | internal/relay/audit/merkle.go:66-99 | every built proof is accepted and stays within 54 nodes, for every tree size up to 2^53-1 and every index |
| MerkleInclusion.InclusionSound | internal/relay/audit/merkle.go:75-99 | an accepted leaf is the leaf at that index and the path is the built path, or two hashed preimages collide |
| MerkleConsistency.PowerOfTwoTest | internal/relay/audit/merkle.go:129-134 | the and-with-predecessor test singles out exactly the powers of two |
| MerkleConsistency.HalveSizes | internal/relay/audit/merkle.go:135-139 | dropping trailing one bits of both indices leaves the two roots a path determines unchanged |
| MerkleConsistency.OddSizeClimbs | internal/relay/audit/merkle.go:140-160 | from an odd first size, folding the path is climbing from the last leaf of the first tree |
| MerkleConsistency.BuildConsistencyPath | internal/relay/audit/merkle.go:177-192 | appending through the buffer adds exactly the path of section 2.1.4.1 |
| MerkleConsistency.BuildConsistencyProof | internal/relay/audit/merkle.go:101-114 | refuses exactly the sizes out of range; every proof handed out is accepted for the two true roots |
| MerkleConsistency.FoldPath | internal/relay/audit/merkle.go:140-160 | the main loop computes the two roots of the bit walk, or stops early |
| MerkleConsistency.VerifyConsistency | internal/relay/audit/merkle.go:116-161 | the loops accept exactly when the path determines both given roots over the recursive tree, within 2^53-1 leaves and 54 nodes |
| MerkleConsistency.ConsistencyComplete | internal/relay/audit/merkle.go:101-161 | for every leaf list and every first size the built proof is accepted within 54 nodes |
| MerkleConsistency.FirstRootSound | internal/relay/audit/merkle.go:116-161 | whatever hash is accepted as first root against the root of a list is the root of the list's prefix of that size, and the path is the built one, or two hashed preimages collide |
| MerkleConsistency.ConsistencySound | internal/relay/audit/merkle.go:116-161 | accepted roots of two lists mean that the first list is a prefix of the second and the path is the built one, or two hashed preimages collide |
| RelayReducer.ApplyKeepsAgreement | internal/relay/jetstream/reducer.go:32-159 | no command makes the reducer panic, and transcripts, events, receipts and channels keep identical copies of every record |
| RelayReducer.ApplyKeepsHeld | internal/relay/jetstream/reducer.go:89-159 | no accepted command drops a record or changes a signature that was set |
| RelayReducer.AgreeingSignature | internal/relay/jetstream/reducer.go:136-159 | a receipt the reducer knows has its slot in the transcript, so attaching a signature never indexes out of range |
| RelayReducer.TenantState.TakenUri | internal/relay/jetstream/reducer.go:56-87 | the scan finds a channel URI exactly when another channel of the tenant has it |
| RelayReducer.TenantState.ApplyChannelCreated | internal/relay/jetstream/reducer.go:56-87 | the maps become those of the specified new tenant, or stay as they were |
| RelayReducer.TenantState.ApplyRecordAppended | internal/relay/jetstream/reducer.go:89-134 | the maps become those of the specified new tenant, or stay as they were |
| RelayReducer.TenantState.ApplySignatureAttached | internal/relay/jetstream/reducer.go:136-159 | the maps become those of the specified new tenant, or stay as they were |
| RelayReducer.TenantState.ApplyCommand | internal/relay/jetstream/reducer.go:32-54 | accepts exactly the commands the specification accepts, changes nothing otherwise, and keeps the indexes in agreement |
| RelayLog.Load | internal/relay/jetstream/operations.go:18-74 | rebuilds exactly the state that replaying the log gives, and fails exactly when replay refuses a message |
| RelayLog.ReplayAgrees | internal/relay/jetstream/operations.go:18-74 | a replayed state has agreeing indexes and the revision of the last message |
| RelayLog.HeldForever | internal/relay/jetstream/reducer.go:89-159 | a record, with the signature it had, is held at every later revision |
| RelayLog.TranscriptIsLog | internal/relay/jetstream/reducer.go:89-134 | each transcript holds exactly the appends of the log, once and in order |
| RelayLog.SequencesHaveNoGaps | internal/relay/jetstream/reducer.go:89-134 | the sequences of a transcript are 1, 2, 3 and so on |
| RelayLog.AppendedAtMostOnce | internal/relay/jetstream/reducer.go:89-134 | one event ID of a channel is appended at most once over all epochs, and one receipt ID at most once |
| RelayLog.ReadTranscript | internal/relay/jetstream/operations.go:300-311 | a page holds the records after the given sequence, in order, up to the limit |
| RelayLog.LookupFindsTranscript | internal/relay/jetstream/operations.go:242-261 | lookup finds an event exactly when the transcript holds it, and returns that copy |
| RelayProtocol.PublishedIsAccepted | internal/relay/jetstream/operations.go:84-240 | a command decided on a state is accepted by the reducer on that state and makes the promised outcome true |
| RelayProtocol.ReturnedIsTrue | internal/relay/jetstream/operations.go:84-240 | an outcome returned without publishing already holds of the loaded state |
| RelayAnswers.UrisNameChannels | internal/relay/jetstream/reducer.go:56-87 | in every replayed state two transcripts have the same URI exactly if they are epochs of one channel |
| RelayAnswers.CreateAppliesExactly | internal/relay/jetstream/reducer.go:56-87 | the reducer accepts a creation exactly if it is well formed, new, and neither its channel has another URI nor its URI another channel |
| RelayAnswers.AppendAppliesExactly | internal/relay/jetstream/reducer.go:89-134 | the reducer accepts an append exactly if it is the next of a known channel up to 2^53-1, complete, and no record of the tenant has its event or its receipt |
| RelayAnswers.AttachAppliesExactly | internal/relay/jetstream/reducer.go:136-159 | the reducer accepts a signature exactly for an unsigned record of that channel, receipt and preimage digest |
| RelayAnswers.CreateDecidesExactly | internal/relay/jetstream/operations.go:84-124 | a creation succeeds at once if the channel is there, publishes exactly what the reducer accepts, is too large if only its size is refused, and conflicts otherwise |
| RelayAnswers.FreshAppendDecidesExactly | internal/relay/jetstream/operations.go:147-199 | an append of a new event publishes exactly the prepared record that admission, the intent and the reducer accept, and otherwise names the step that refused it |
| RelayAnswers.OtherAppendDecidesExactly | internal/relay/jetstream/operations.go:147-168 | any other append finds its channel unknown, its event stored, or another event under its ID, and says which |
| RelayAnswers.AttachDecidesExactly | internal/relay/jetstream/operations.go:201-240 | an attachment answers at once, collides, is not found, is too large or publishes exactly by what the transcripts hold under its receipt |
| RelayAnswers.FailuresAreExplained | internal/relay/jetstream/operations.go:84-240 | in every run a call that failed was malformed, was cancelled, published 64 times unanswered, or was refused on a state the log had |
| RelayProtocol.NextKeepsInv | internal/relay/jetstream/operations.go:76-240 | every step of every call, and every late commit, keeps the log replayable and each message justified by the state it expects |
| RelayProtocol.NeverWedges | internal/relay/jetstream/operations.go:84-240 | in every reachable state the whole log replays to agreeing indexes |
| RelayProtocol.OutcomesStayTrue | internal/relay/jetstream/operations.go:84-240 | what a call returned stays true of the log for ever: the record it returned is the committed one |
| RelayProtocol.CommittedAppendWasAdmitted | internal/relay/jetstream/operations.go:147-199 | each committed append was admitted, prepared and sequenced on exactly the state just before it |
| RelayProtocol.CommittedAtMostOnce | internal/relay/jetstream/operations.go:147-199 | no two commits of any run append the same event of a channel or the same receipt |
| RelayProtocol.TrueMakesRetrySucceed | internal/relay/jetstream/operations.go:84-240 | repeating a call whose outcome already holds succeeds without publishing |
| RelayProtocol.CommittedCallSucceedsOnRetry | internal/relay/jetstream/operations.go:84-240 | a call whose publish committed, even behind an error, succeeds on every later attempt |
| RelayService.SystemNextKeepsInv | internal/relay/service/append.go:48-109 | every step of the append service over the concurrent log keeps what its success will need |
| RelayService.SuccessIsDurablySigned | internal/relay/service/append.go:48-109 | append succeeds only when the log holds the request's own event with the returned, non-empty signature |
| RelayService.LookupAnswersExactly | internal/relay/service/append.go:56-68 | a request goes on to signing, to appending or to its answer, or is refused, exactly by what the channel's transcript holds under its event ID |
| RelayService.RefusalsAreExplained | internal/relay/service/append.go:48-109 | a request is refused only for its intent, for what the transcript holds, because the signer selects no key or does not sign, or because the store call it made failed |
| ProtocolProgress.UndisturbedCall | internal/relay/jetstream/operations.go:84-240 | from every reachable state an undisturbed call ends in one attempt with what is decided on the present state, and commits just that |
| LeaseProtocol.NextKeepsInv | internal/coordination/jetstreamkv/store.go:243-409 | every step, late commit, retention purge and reconciliation keeps each message justified and each handle backed by a write |
| LeaseProtocol.WritesOnlyGrow | internal/coordination/jetstreamkv/store.go:243-294 | stored revisions only grow along every run |
| LeaseProtocol.HandoverOnlyWhenOver | internal/coordination/jetstreamkv/store.go:243-283 | a lease passes to another holder only over a released or expired record; other writes renew or release the holder's own |
| LeaseProtocol.EqualTokensAgree | internal/coordination/jetstreamkv/store.go:356-409 | handles with equal tokens agree on key, holder, expiry and release |
| LeaseProtocol.CurrentHandlesAgree | internal/coordination/jetstreamkv/store.go:356-409 | two handles current for a key are the same lease, and it is the stored one |
| LeaseProtocol.StaleNeverCommits | internal/coordination/jetstreamkv/store.go:285-294 | once a key has a newer write, a put expecting an older revision never commits |
| LeaseProtocol.SuccessHoldsOwnBytes | internal/coordination/jetstreamkv/store.go:285-294 | every reported success names a write of exactly the caller's bytes, newer than the revision it expected |
| LeaseClient.LookIsAcquire | internal/coordination/jetstreamkv/store.go:243-283 | what the protocol's client makes of a record it finds is what the sequential Acquire does: an unreleased, unexpired lease is taken, any other replaced |
| LeaseClient.PutIsUpdate | internal/coordination/jetstreamkv/store.go:285-294 | a put commits or is reconciled exactly where the sequential update succeeds, with the same revision |
| LeaseClient.ResumableIsResume | internal/coordination/jetstreamkv/store.go:300-318 | the protocol resumes exactly where the sequential store does |
| ProtocolProgress.UndisturbedAcquire | internal/coordination/jetstreamkv/store.go:243-283 | from every reachable state an undisturbed Acquire of a key nobody holds ends with a handle for it at the next revision |
| ProtocolProgress.UndisturbedMove | internal/coordination/jetstreamkv/store.go:356-409 | an undisturbed Renew or Release through a current handle moves the handle and the record on |
| MemoryStore.Store.AcquireLease | internal/coordination/memory/store.go:64-78 | the handle, the error and the new table are the specified ones |
| MemoryStore.Store.ResumeLease | internal/coordination/memory/store.go:80-92 | a handle exactly where the specification resumes, otherwise its error |
| MemoryStore.Lease.RenewLease | internal/coordination/memory/store.go:134-148 | table and handle move together to the specified state, or neither changes |
| MemoryStore.Lease.ReleaseLease | internal/coordination/memory/store.go:157-169 | table and handle move together to the specified state, or neither changes |
| KvStore.Store.Mutate | internal/coordination/jetstreamkv/store.go:285-294 | an update and its reconciliation give the specified revision or error |
| KvStore.Store.AcquireLease | internal/coordination/jetstreamkv/store.go:243-283 | create, look and replace give the specified handle, error and bucket |
| KvStore.Lease.RenewLease | internal/coordination/jetstreamkv/store.go:356-375 | bucket and handle move together to the specified state; errors are the specified ones |
| KvStore.Lease.ReleaseLease | internal/coordination/jetstreamkv/store.go:390-409 | bucket and handle move together to the specified state; errors are the specified ones |
| LeaseRefinement.AcquireAgrees | internal/coordination/memory/store.go:64-78 | on related stores both acquire alike, with the same token, and stay related |
| LeaseRefinement.ReadsAgree | internal/coordination/jetstreamkv/store.go:300-348 | on related stores resume and inspect answer alike |
| LeaseRefinement.ValidMeansResumable | internal/coordination/memory/store.go:80-118 | in either store inspect says valid exactly when resume succeeds |
| LeaseRefinement.ReleasedMeansNextRevision | internal/coordination/memory/store.go:94-118 | inspect says released exactly for the revision after the token, counted over all keys |
| LeaseRefinement.RenewAgrees | internal/coordination/memory/store.go:134-148 | after a resume both stores renew alike, with the same token |
| LeaseRefinement.ReleaseAgrees | internal/coordination/memory/store.go:157-169 | after a resume both stores release alike |
| LeaseRefinement.RenewAgreesExactly | internal/coordination/jetstreamkv/store.go:356-375 | on any handle the stores disagree about a renewal exactly when a newer record of its very bytes is stored |
| LeaseRefinement.ReleaseAgreesExactly | internal/coordination/jetstreamkv/store.go:390-409 | on any handle the stores disagree about a release exactly when a newer released record of its holder and expiry is stored |
| LeaseRefinement.StaleRenewRejoins | internal/coordination/jetstreamkv/store.go:285-294 | renewing twice to one expiry from one resumed handle: the memory store refuses the second, the bucket store repeats the first answer |
| LeaseRefinement.StaleReleaseRejoins | internal/coordination/jetstreamkv/store.go:285-294 | releasing twice from one resumed handle: the memory store refuses the second, the bucket store repeats the first answer |
| LeaseRefinement.FreshLeaseResumes | internal/coordination/memory/store.go:39-92 | new stores are related and the first lease acquired resumes, so such handles exist |
| BudgetSlots.ChangeMeans | internal/coordination/memory/budget.go:36-124 | each list operation computes the order-free meaning on the set of slots, with the same error, and keeps tokens distinct |
| BudgetSlots.PruneMeans | internal/coordination/memory/budget.go:126-137 | pruning keeps exactly the live slots |
| BudgetSlots.TokenLifecycle | internal/coordination/memory/budget.go:36-124 | a token is reserved, then committed or cancelled, and once committed replaced or retired; an operation succeeds exactly at the right stage and within the limit, with the error named otherwise, and moves no other token |
| MemoryBudget.CapabilityBudget.PruneEntries | internal/coordination/memory/budget.go:126-137 | the filter loop stores and returns the specified pruned list |
| MemoryBudget.CapabilityBudget.Reserve | internal/coordination/memory/budget.go:36-57 | result and new table are the specified ones |
| MemoryBudget.CapabilityBudget.Find | internal/coordination/memory/budget.go:139-150 | prunes, then finds the first position of the token or reports a conflict |
| MemoryBudget.CapabilityBudget.Commit | internal/coordination/memory/budget.go:59-73 | result and new table are the specified ones |
| MemoryBudget.CapabilityBudget.Cancel | internal/coordination/memory/budget.go:75-87 | result and new table are the specified ones |
| MemoryBudget.CapabilityBudget.Replace | internal/coordination/memory/budget.go:89-110 | result and new table are the specified ones, checking expiry last |
| MemoryBudget.CapabilityBudget.Retire | internal/coordination/memory/budget.go:112-124 | result and new table are the specified ones |
| MemoryBudget.CapabilityBudget.Remove | internal/coordination/memory/budget.go:152-155 | shifting the tail takes out exactly one slot and keeps the order |
| KvBudget.SortedReorders | internal/coordination/jetstreamkv/budget.go:191-191 | the stored list is sorted by token and a permutation of the entries |
| KvBudget.CapabilityBudget.MutateValue | internal/coordination/jetstreamkv/budget.go:168-213 | read, change, sort and write give the specified result and bucket |
| KvBudget.CapabilityBudget.Apply | internal/coordination/jetstreamkv/budget.go:88-166 | each operation gives the specified result and bucket |
| BudgetRefinement.ValueFits | internal/coordination/jetstreamkv/budget.go:192-195 | a value of at most 32 slots never reaches the 8192-byte limit |
| BudgetRefinement.KvComputes | internal/coordination/jetstreamkv/budget.go:88-259 | the bucket's budget computes the order-free meaning with its error, and the value it writes decodes exactly if a pending expiry is a whole millisecond |
| BudgetRefinement.MemoryComputes | internal/coordination/memory/budget.go:36-155 | the memory budget computes the order-free meaning and leaves other principals alone |
| BudgetRefinement.OperateAgrees | internal/coordination/jetstreamkv/budget.go:88-259 | one operation at any later time has the same result on both, except the named error of an expired Replace, and the two stay related exactly if it does not write an unreadable reservation |
| BudgetRefinement.BudgetsAgree | internal/coordination/memory/budget.go:36-155 | any sequence of operations with a monotone clock and readable reservations succeeds and fails alike, ends with the same live slots, and every stored value decodes |
| BudgetRefinement.ReserveIsReadableExactly | internal/coordination/jetstreamkv/budget.go:88-108 | for every configuration and clock, a successful reservation is unreadable exactly if its pending expiry is not a whole millisecond |
| BudgetRefinement.AlignedIsReadable | internal/coordination/jetstreamkv/budget.go:88-108 | an aligned clock and an aligned pending lifetime make every reservation readable |
| BudgetRefinement.WedgedFails | internal/coordination/jetstreamkv/budget.go:168-190 | on an unreadable value every operation fails, with the invariant error once its arguments pass, and leaves the bucket as it was |
| BudgetRefinement.WedgedForever | internal/coordination/jetstreamkv/budget.go:168-190 | after any sequence of operations the unreadable value is still there, and every operation of its principal has failed |
| BudgetRefinement.UnalignedWedges | internal/coordination/jetstreamkv/budget.go:234-259 | a clock, and a pending lifetime, with which the first reservation writes a value that cannot be read |
| PrimitivesService.MemoryService.CancelSlot | internal/primitives/service.go:143-146 | compensation gives the slot back and reports the failure, or reports unavailability when that fails |
| PrimitivesService.MemoryService.AcquireCapability | internal/primitives/service.go:129-159 | the sequence of store calls with compensation has the specified reply and leaves the specified stores |
| PrimitivesService.MemoryService.RenewCapability | internal/primitives/service.go:187-211 | the sequence of store calls has the specified reply and leaves the specified stores |
| PrimitivesService.MemoryService.ReleaseCapability | internal/primitives/service.go:226-240 | the sequence of store calls has the specified reply and leaves the specified stores |
| ServiceAnswers.AcquireAnswersExactly | internal/primitives/service.go:129-159 | over the lease table and the live slots: exactly when an Acquire is granted, sealing included, and which failure each refusal gives |
| ServiceAnswers.AcquireTakesExactly | internal/primitives/service.go:129-159 | exactly when an Acquire takes the lease, whatever becomes of it later, and that leases stay as they were otherwise |
| ServiceAnswers.RenewAnswersExactly | internal/primitives/service.go:187-211 | exactly when a Renew is granted, and which failure each refusal gives |
| ServiceAnswers.ReleaseAnswersExactly | internal/primitives/service.go:226-240 | exactly when a Release is done, and which failure each refusal gives |
| ServiceAnswers.ContinuedMovesExactly | internal/primitives/service.go:187-240 | exactly when a Renew or Release moves the lease, even if it fails later, and that leases stay as they were otherwise |
| ServiceAnswers.InspectAnswersExactly | internal/primitives/service.go:169-177 | Inspect says valid, expired, released or stale exactly by the stored lease and the clock, and changes nothing |
| ServiceAnswers.NamesAndDigests | internal/primitives/service.go:328-350 | the alphabets and lengths of digests and identifiers |
| ServiceAnswers.FirstAcquireIsGranted | internal/primitives/service.go:129-159 | new stores grant the first well-formed Acquire that is sealed before its reservation lapses |
| ServiceAnswers.ReleaseFrees | internal/primitives/service.go:226-240 | a released key can be acquired again |
| PrimitivesService.FreshBackendsRelated | internal/coordination/memory/budget.go:29-34 | a new memory backend and a new bucket backend of one configuration are related, so what follows holds of every run from the start |
| PrimitivesService.ServeAgrees | internal/primitives/service.go:129-253 | one request with a readable reservation gets the same reply and fencing token from the memory stores and the bucket stores, which stay related; the one exception is the named error of a renewal whose new expiry has passed |
| PrimitivesService.RunsStayRelated | internal/primitives/service.go:129-253 | after any number of such requests with increasing clock readings the backends are still related |
| PrimitivesService.ServiceRunsAgree | internal/primitives/service.go:129-253 | at every place of any sequence of such requests with increasing clock readings both backends give the same reply, up to that one error |
| ServiceEffects.FailedAcquireLeavesSlots | internal/primitives/service.go:129-159 | an Acquire that fails at any step leaves the principal's live slots exactly as they were |
| ServiceEffects.GrantedByAcquire | internal/primitives/service.go:129-159 | right after a granted Acquire the capability has a fresh fencing token, is the stored lease, resumes at every time before its expiry and owns an active slot that expires with it |
| ServiceEffects.GrantedByRenew | internal/primitives/service.go:187-211 | right after a granted Renew the presented capability resumes at no time and has no slot, and the new one resumes until it expires and owns one |
| ServiceEffects.DoneByRelease | internal/primitives/service.go:226-240 | right after a Release the presented capability resumes at no time and has no slot |
| ServiceEffects.ServeKeepsHealthy | internal/primitives/service.go:129-253 | every request keeps budget tokens distinct and lease revisions within the counter |
| ServiceEffects.ServeKeeps | internal/primitives/service.go:129-253 | no request revives a capability whose lease was written over, and only spending it or reaching its expiry takes the stored lease from a capability |
| ServiceEffects.NeverHonouredAgain | internal/primitives/service.go:161-253 | in every run over the memory stores, once a capability was renewed or released no later request presenting it is granted, done or told it is valid, and it resumes at no time |
| ServiceEffects.NeverHonouredAgainByBuckets | internal/primitives/service.go:161-253 | the same of every run over the bucket stores that the refinement covers |
| ServiceEffects.GrantedResumesUntilSpent | internal/primitives/service.go:129-211 | in every run a granted capability resumes until its expiry as long as it is not presented for renewal or release |
| ServiceEffects.FreshIsHealthy | internal/coordination/memory/store.go:39-44 | new stores meet what these theorems ask of the start |
| CapabilitySaga.ChangeKeepsActive | internal/coordination/jetstreamkv/budget.go:110-152 | only a replacement or retirement of its own token takes away a live active slot |
| CapabilitySaga.DeliverKeepsSafe | internal/coordination/jetstreamkv/budget.go:168-213 | a late budget write keeps every active slot that has neither expired nor had its lease written over |
| CapabilitySaga.ForgetKeepsKept | internal/coordination/jetstreamkv/budget.go:47-78 | when retention forgets a record, all its active slots have expired |
| CapabilitySaga.WonSupersedes | internal/primitives/service.go:187-240 | a renewal or release that succeeded on a capability leaves a newer write on its key |
| CapabilitySaga.NextKeepsInv | internal/primitives/service.go:129-240 | every saga step, failure, crash, late write and lease step keeps the ownership invariant |
| CapabilitySaga.OutstandingOwnsSlot | internal/primitives/service.go:129-240 | a returned capability that resume would still accept owns an active slot that expires with its lease |
| CapabilitySaga.CapabilityBound | internal/primitives/service.go:129-240 | in every reachable state a principal has at most its limit of outstanding capabilities |
| ProtocolProgress.UndisturbedCapability | internal/primitives/service.go:129-159 | an undisturbed Acquire of a free key by a principal with room returns a capability that owns an active slot |
| ProjectionInvariant.StepKeepsInv | conformance/python/yukh_projection.py:263-403 | every applied record keeps triggers, active-claim and offer bounds, open offers and acceptances consistent |
| ProjectionInvariant.ReplayInv | conformance/python/yukh_projection.py:263-271 | the invariant holds after every prefix of every replay |
| ProjectionInvariant.ReplayForward | conformance/python/yukh_projection.py:324-403 | closed offers, spent acceptances and used generations stay so for the rest of a replay |
| ProjectionInvariant.AcceptCloses | conformance/python/yukh_projection.py:378-403 | an acceptance finds its offer open and closes every offer of that claim for good |
| ProjectionInvariant.AcceptedAtMostOnce | conformance/python/yukh_projection.py:378-403 | no offer is accepted twice, and a second acceptance on a claim takes an offer made after the first |
| ProjectionInvariant.SucceededAtMostOnce | conformance/python/yukh_projection.py:334-348 | no two claims succeed the same acceptance |
| ProjectionInvariant.GenerationUsedOnce | conformance/python/yukh_projection.py:334-348 | no claim generation is used twice |
| ProjectionInvariant.TriggerIsStart | conformance/python/yukh_projection.py:457-462 | a work has a trigger exactly while it has more than one active claim, and it is the sequence of the record that began this conflict |
| ProjectionInvariant.ProjectNeverFails | conformance/python/yukh_projection.py:464-518 | projecting any work of any reachable state succeeds; at most 32 active claims and 32 open offers |
| ProjectionHistory.ClaimHistory | conformance/python/yukh_projection.py:334-376 | a claim is known exactly if a record claimed it, active exactly if no record released it since, and keeps that record's event and work |
| ProjectionHistory.OfferHistory | conformance/python/yukh_projection.py:365-403 | the open offers of a claim are exactly those that records made and no later release or acceptance closed |
| ProjectionHistory.LatestHistory | conformance/python/yukh_projection.py:350-403 | the parent a claim's next record must name is exactly its latest record |
| ProjectionHistory.AwaitHistory | conformance/python/yukh_projection.py:334-403 | what awaits a successor are exactly the acceptances that no later claim succeeded |
| ProjectionHistory.RecordHistory | conformance/python/yukh_projection.py:263-271 | known events, sequences and works are exactly those of the records within the high water |
| ProjectionAnswers.ProjectionExactly | conformance/python/yukh_projection.py:464-518 | state, contenders, offers and diagnostics of a work are exactly what the replayed records say of it, and finality what reasons and lifecycle say |
| ProjectionRefusals.BindingExactly | conformance/python/yukh_projection.py:287-316 | which code refuses a record that is not bound to the records before it |
| ProjectionRefusals.ClaimRefusedExactly | conformance/python/yukh_projection.py:334-348 | a claim is refused exactly for a missing or used generation, a predecessor that is no waiting acceptance or not its cause, or 32 contenders, with the code of the first |
| ProjectionRefusals.ContinueRefusedExactly | conformance/python/yukh_projection.py:350-376 | a progress, release or offer is refused exactly if it does not continue the latest record of an active claim on its work, or is an offer too many or incomplete |
| ProjectionRefusals.AcceptedIsAcceptable | conformance/python/yukh_projection.py:378-403 | an acceptance that is applied names an open offer, repeats what the offer and the claim said, and comes from the participant it was offered to |
| ProjectionRefusals.AcceptableIsAccepted | conformance/python/yukh_projection.py:378-403 | every such acceptance is applied |
| ProjectionRefusals.ReferenceRefusedExactly | conformance/python/yukh_projection.py:405-424 | an answer, verdict or verification is refused exactly if it does not refer to its cause, of the right kind and matching evidence |
| ProjectionRefusals.NextRecordExactly | conformance/python/yukh_projection.py:263-424 | the next record of any replay is accepted exactly if none of these speaks against it, and refused with the first code that does |
| ProjectionEngine.IncreasingUnique | conformance/python/yukh_projection.py:261-261 | there is only one way to sort the kept records by sequence |
| ProjectionEngine.NormalizedAlike | conformance/python/yukh_projection.py:232-261 | permuted or repeated records normalize to the same list |
| ProjectionEngine.OrderIndependent | conformance/python/yukh_projection.py:232-285 | permuting or repeating records changes neither success nor projections nor reasons |
| ProjectionEngine.RunSucceedsExactly | conformance/python/yukh_projection.py:232-285 | a replay succeeds exactly when its records agree pairwise and each is applicable; the projections add no failure |
| ProjectionEngine.Normalize | conformance/python/yukh_projection.py:232-261 | the dictionary loop succeeds exactly on pairwise agreeing records and returns their sorted distinct items; otherwise it names the first record that disagrees with an earlier one by its code |
| ProjectionEngine.ReplayEngine.UpdateConflictTrigger | conformance/python/yukh_projection.py:457-462 | the trigger table becomes the specified one |
| ProjectionEngine.ReplayEngine.AddClaim | conformance/python/yukh_projection.py:334-348 | the tables become the specified ones, or the specified code is reported |
| ProjectionEngine.ReplayEngine.ChangeClaim | conformance/python/yukh_projection.py:350-376 | the tables become the specified ones, or the specified code is reported |
| ProjectionEngine.ReplayEngine.AddOffer | conformance/python/yukh_projection.py:365-376 | the tables become the specified ones, or the specified code is reported |
| ProjectionEngine.ReplayEngine.SupersedeOthers | conformance/python/yukh_projection.py:396-399 | the loop accepts one offer and supersedes exactly the claim's other open ones |
| ProjectionEngine.ReplayEngine.AcceptOffer | conformance/python/yukh_projection.py:378-403 | the tables become the specified ones, or the acceptance is refused |
| ProjectionEngine.ReplayEngine.ApplyEvent | conformance/python/yukh_projection.py:324-424 | every kind of event has the specified effect or code |
| ProjectionEngine.ReplayEngine.ReplayItem | conformance/python/yukh_projection.py:263-271 | one record has the specified effect or code |
| ProjectionEngine.ReplayEngine.ReplayAll | conformance/python/yukh_projection.py:263-271 | the loop ends in the replayed state or with the first refusal |
| ProjectionEngine.Run | conformance/python/yukh_projection.py:232-285 | on records that agree pairwise the whole engine returns exactly the specified report or error code; on others the code of the first disagreement |
| ProjectionAnswers.ReportExactly | conformance/python/yukh_projection.py:232-285 | a report covers exactly the works its records concern, says of each exactly what the records say, and names exactly the reasons the records and the header give |
| BackupRecovery.CheckObligations | internal/relay/lifecycle/backup.go:123-134 | the loop accepts exactly three bound, canonical obligations of one policy in the fixed order |
| BackupRecovery.Examine | internal/relay/lifecycle/backup.go:135-171 | the loop reports unsound evidence exactly when some receipt is unacceptable or an identifier spans two domains, blames the first receipt that makes it so, and otherwise fills its maps as specified |
| BackupRecovery.Summarize | internal/relay/lifecycle/backup.go:172-194 | the findings and the two status flags follow from what each domain's receipts say |
| BackupRecovery.Classify | internal/relay/lifecycle/backup.go:118-195 | status and findings are the declared ones; corrupt evidence blames the domain of the first fault, unless that is a clash of identifiers or an unknown domain |
| BackupAnswers.FindingsExactly | internal/relay/lifecycle/backup.go:118-195 | on sound evidence a domain is reported missing exactly if no receipt is of it, contradictory exactly if two verified receipts differ, failed or late exactly by its earliest verified receipt, and unavailable exactly if it has none of these incidents and some verdict is unavailable |
| BackupAnswers.FindingsInOrder | internal/relay/lifecycle/backup.go:172-194 | each domain is reported at most once, in the order of the obligations |
| BackupAnswers.StatusExactly | internal/relay/lifecycle/backup.go:172-194 | sound evidence is an incident exactly with a serious finding, completable exactly without findings, and pending otherwise |
| BackupRecovery.ContradictedExactly | internal/relay/lifecycle/backup.go:158-170 | comparing each verified receipt with the first finds a contradiction exactly when some two of the domain's verified receipts differ in identifier or digest |
| BackupRecovery.DomainIndependentExactly | internal/relay/lifecycle/backup.go:118-195 | the finding of a domain is the same for every order and repetition of the receipts if and only if its verified receipts disagree or all deserve the same reason |
| BackupRecovery.OrderIndependent | internal/relay/lifecycle/backup.go:118-195 | order and repetition change neither status nor findings, if the verified receipts of each domain disagree or all deserve the same reason |
| BackupRecovery.NoCollisionIsUnambiguous | internal/relay/lifecycle/canonical.go:62-78 | if no two different receipts share identifier and digest, order never matters |
| BackupRecovery.CollisionChangesStatus | internal/relay/lifecycle/backup.go:158-170 | for any checks, two verified receipts of one identifier and digest, one a timely success and the other not, are an incident in one order and pending in the other |
| BackupRecovery.NeverResolvedByReceipts | internal/relay/lifecycle/backup.go:113-117 | for one verifier, appending receipts keeps corrupt corrupt, and an incident never becomes pending or completable |
| BackupRecovery.ChangedVerifierExactly | internal/relay/lifecycle/backup.go:146-157 | under a changed verifier and any appended receipts, corrupt evidence stays corrupt if and only if a fault other than a signature, or a signature now refused, shows it; where order does not matter, an incident stays unresolved if and only if a signature is refused or the receipts now verified still show one |
| BackupRecovery.NeverResolved | internal/relay/lifecycle/backup.go:113-117 | a verifier that keeps every verdict it gave, and may add verdicts it could not give before, keeps corrupt corrupt and, where order does not matter, incidents unresolved for any appended receipts |
| BackupRecovery.OutageReopens | internal/relay/lifecycle/backup.go:151-155 | a failed receipt that was an incident while verified, or corrupt while refused, is pending while verification is unavailable |
| BackupRecovery.CompletableExactly | internal/relay/lifecycle/backup.go:118-195 | where order does not matter, completable exactly when the evidence is sound and every domain has one distinct receipt, verified, successful and in time |
| BackupRecovery.ValidateCompletion | internal/relay/lifecycle/backup.go:210-230 | the loops accept exactly the completions that cite each domain's receipt of completable evidence |
| BackupRecovery.AcceptedCitesSuccess | internal/relay/lifecycle/backup.go:210-230 | an accepted completion cites, for each domain it lists, the only verified receipt of that domain, a success in time, by identifier and digest |
| BackupAnswers.AcceptedExactly | internal/relay/lifecycle/backup.go:210-230 | without colliding receipts, a completion is accepted exactly if its contract is valid, there is one good receipt for each of three bound obligations and no other, and each entry cites one of them for this operation, intent and policy, no later than the completion |
| BackupRecovery.CompletionIndependent | internal/relay/lifecycle/backup.go:210-230 | order and repetition of receipts do not change whether a completion is accepted |
| ProofReplay.ReplayStore.Purge | internal/primitivesstaging/replay.go:123-125 | at most 256 expired rows go, the longest expired first, and no other row |
| ProofReplay.ReplayStore.Reserve | internal/primitivesstaging/replay.go:96-146 | one transaction: only a commit changes rows or high water, and every refusal is the specified one |
| ProofReplay.ReplayStore.Authenticate | internal/primitivesstaging/authenticator.go:38-61 | the window first, then the store; a replay is answered as unauthenticated |
| ProofReplay.ReserveAnswersExactly | internal/primitivesstaging/replay.go:96-146 | a working store refuses exactly unreadable proofs, clocks stepped back too far and a full table, calls a replay exactly a proof whose row a purge keeps, and stores and accepts every other |
| ProofReplay.DeployedAcceptsExactly | internal/primitivesstaging/authenticator.go:38-61 | a new proof is accepted exactly from 60 seconds before to 5 after the clock, while the clock has not stepped back 5 seconds and the table has room, and is kept for 70 seconds from its issue |
| ProofReplay.NeverAcceptedTwice | internal/primitivesstaging/replay.go:96-146 | for every sequence of clock readings no proof is accepted twice, if retention exceeds window plus rollback guard |
| ProofReplay.DeployedNeverAcceptsTwice | internal/primitivesstaging/authenticator.go:122-123 | so with 60 and 5 seconds of window, 5 of guard and 70 of retention no proof is ever accepted twice |
| ProofReplay.AcceptedTwiceOtherwise | internal/primitivesstaging/replay.go:129-133 | with any shorter retention some run accepts a proof twice |
| WireFormat.FieldExactly | internal/clientauth/gcpworkload/foundation.go:390-417 | a length-prefixed field reads as a value exactly when it was written from it and is neither empty nor too long |
| WireFormat.Buffer.WritePrefixed | internal/clientauth/gcpworkload/foundation.go:390-397 | appends the truncated length and the value |
| WireFormat.Reader.ReadFull | internal/clientauth/gcpworkload/foundation.go:418-427 | reads that many bytes and moves the cursor past them, or fails |
| WireFormat.Reader.ReadField | internal/clientauth/gcpworkload/foundation.go:402-417 | reads one field and moves the cursor past it, or fails |
| WorkloadCodec.PrintData | internal/clientauth/gcpworkload/foundation.go:136-153 | prints the layout of valid data and nothing else |
| WorkloadCodec.ReadData | internal/clientauth/gcpworkload/foundation.go:155-190 | the cursor-driven reads compute the specified parse |
| WorkloadCodec.ParseDataExactly | internal/clientauth/gcpworkload/foundation.go:126-190 | parsing yields a value exactly from the layout of that valid value: inverse of printing, and no second encoding |
| WorkloadCodec.DataChecksNeverFire | internal/clientauth/gcpworkload/foundation.go:149-189 | neither the re-encoding comparison nor the 4096-byte limit ever refuses valid data |
| WorkloadCodec.DataOnTheWire | internal/clientauth/gcpworkload/foundation.go:136-153 | the bytes of associated data, field by field, with magic, domain and lengths written out |
| WorkloadCodec.ReadableData | internal/clientauth/gcpworkload/foundation.go:117-190 | which associated data some bytes parse to, limit by limit |
| WorkloadCodec.PrintEnvelope | internal/clientauth/gcpworkload/foundation.go:213-230 | prints the layout of a valid envelope and nothing else |
| WorkloadCodec.ReadEnvelope | internal/clientauth/gcpworkload/foundation.go:232-260 | the cursor-driven reads compute the specified parse |
| WorkloadCodec.ParseEnvelopeExactly | internal/clientauth/gcpworkload/foundation.go:202-260 | parsing yields an envelope exactly from the layout of that valid envelope |
| WorkloadCodec.EnvelopeChecksNeverFire | internal/clientauth/gcpworkload/foundation.go:226-259 | neither the re-encoding comparison nor the 12288-byte limit ever refuses a valid envelope |
| WorkloadCodec.EnvelopeOnTheWire | internal/clientauth/gcpworkload/foundation.go:213-230 | the bytes of an envelope, field by field, with magic, algorithm and lengths written out |
| WorkloadCodec.ReadableEnvelope | internal/clientauth/gcpworkload/foundation.go:192-260 | which envelopes some bytes parse to, limit by limit |
| SessionCodec.EncodeSession | internal/clientauth/gcpworkload/credential_store.go:237-257 | appends exactly the specified layout |
| SessionCodec.DecodeSession | internal/clientauth/gcpworkload/credential_store.go:259-290 | the cursor-driven reads compute the specified decoding |
| SessionCodec.DecodeExactly | internal/clientauth/gcpworkload/credential_store.go:259-290 | decoding yields a session exactly from the layout of that valid session with a key reference of at most 512 bytes |
| SessionCodec.SessionOnTheWire | internal/clientauth/gcpworkload/credential_store.go:237-257 | the bytes of a session, field by field, with magic, version and lengths written out |
| SessionCodec.ReadableSession | internal/clientauth/gcpworkload/credential_store.go:259-290 | which sessions some bytes decode to, limit by limit |
| SessionCodec.DecodeInvertsEncodeExactly | internal/clientauth/gcpworkload/credential_store.go:237-290 | every valid session encodes, and decodes again exactly when its key reference has at most 512 bytes |
| SessionCodec.LongReferenceIsLost | internal/clientauth/credentials.go:55-71 | under any rules that accept one real participant and token, a valid record whose encoding cannot be decoded |
| SessionCodec.SavedSessionsDecode | internal/clientauth/gcpworkload/credential_store.go:93-235 | every session that passes the checks of Save encodes, and decodes to itself |

## Left out

- CapabilitySaga.CapabilityBound: takes as given that the token source never repeats a token and that a capability can be presented only after it was returned, by the principal it was sealed for.
- PrimitivesService.ServiceRunsAgree: leaves out runs in which a reservation is unreadable, where the backends part for good. Where a renewal's new expiry passes before its slot is moved, the memory backend reports temporary unavailability and the bucket backend an invariant violation, because they check expiry in a different order.
- BackupRecovery.OrderIndependent: leaves out the finding of corrupt evidence, which names the first fault and so depends on order.
- BackupRecovery.NeverResolved: asks for incidents that order not matter under the second verifier, because a colliding success verified only later may come first and hide the failure; `NeverResolvedByReceipts` needs no such condition.
- BackupAnswers.AcceptedExactly: asks that no two different receipts share identifier and digest, since the last receipt of a domain is the one compared.
- ProjectionEngine.OrderIndependent: is about reports and their errors on agreeing records; which of several disagreements is named depends on the order of records.
- Each store call reads its clock once in the model, and all clients of one deployment share a clock.
- Nonces (`Consume`), `Valid` on lease handles, opening a sealed capability and the probe methods.
- Records of an older epoch, schema or kind in a bucket: one deployment has one epoch.
- The registration, credential and signature checks in front of the proof replay store, the header of a transcript and the opening of stores.
- Retention in the sequential comparison of the two backends; it is modelled in the two protocols. `BudgetRefinement.WedgedForever` is therefore about the time before the record is forgotten.
- Aliasing of claim and offer objects in the projection engine: a claim holds the identifiers of shared offer records, and updating a record through the table stands for updating it in place.
- The JSON of events, the per-record envelope and digest checks and the comparison of evidence descriptors in the projection engine, which are parameters; lists it sorts before printing are kept as maps.
- Hash functions, signatures, sealing, RFC 8785 canonical JSON, UUIDs and regular expressions, which are parameters; so are the lifecycle validators called by the backup classifier.
- The leaf hash of the audit tree, which only feeds leaves to it.
- HTTP, TLS, command-line, NATS, SQL and key-custody adapters, configuration and file checks, `internal/client/inspect.go` and `internal/relay/memory/store.go`.
