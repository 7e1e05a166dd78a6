# Verified model of crash-safe finality, paging oracles and governed residency

A Dafny 4.11 model of the parts of the repository that carry its promises, with proofs.

- **VDB-C1** (`vdb_c1/`): the coordinator that journals, applies one conditional UPSERT, confirms by a fresh read,
  certifies and recovers; the state machine of journal paths; the transactional store; the offline verifier; the
  witness; the journal file; the execution envelopes. The protocol is a transition system over the durable journal,
  the durable store and the phase of the lock holder. A run may be cut between any two durable actions, and the store
  may be written by others; *honest* runs have no outside writer. The coordinator object drives the same steps.
- **The page-cache oracle** (`vre15/oracle.py`): LRU, the envelope cache with and without prefetch, and Belady's
  policy with its lazy-deletion heap, all measured against every legal schedule of reads.
- **Checkpoint on revocation** (`vre15/revoke.py`, `vre15/host.py`, `vre15/verify_evidence.py`): copy-on-write regions,
  receipts, the offline checks of receipts, and the host whose housekeeping keeps residency behind authority.
- **Snapshots and managed residency** (`vre1/snapshot.py`, `vre15/host.py`): the sparse codec and the bounded live set.

Digests in VDB-C1 and in receipts are terms that hold what was hashed, so they are injective; signatures are terms
that hold the key and the message. JSON, zlib and the snapshot digest are functions of which only the round trip is
assumed. Clocks, process deaths, page faults and kernel reclaim are arbitrary functions of a counter. Time stamps are
integers of microseconds, clock readings are reals.

| file | content |
|---|---|
| Paging, Belady, Lru, EnvelopeCache, EnvelopeReplay, Traces | the oracle |
| States, Canon, Journal, JournalFile, PlainLines, Store | the pieces of VDB-C1 |
| Protocol, Paths, Agreement, Finality, Eee | the protocol and its runs |
| Verifier, Completeness, AdmissionTimes, Witness, WitnessRuns | the independent parties |
| Coordinator | the coordinator object |
| Bytes, Pages, Revocation, Evidence, Guests, Requests, MappedHost | checkpoint on revocation |
| Snapshot, ManagedHost, PlainFormats | snapshots and managed residency |

## Model

| member | source | states |
|---|---|---|
| `Belady.BeladyIsOptimal` | vre15/oracle.py:39-41 | a run that always evicts a page used furthest in the future reads no more than any legal schedule that serves the same references within the capacity |
| `Belady.StaysAhead` | vre15/oracle.py:161-179 | the exchange argument: at every moment the misses so far plus the pages the other schedule still has to read bound its reads |
| `Belady.BeladyFewest` | vre15/oracle.py:39-41 | every Belady run, however it breaks ties, has exactly the fewest reads, reached by an on-demand schedule |
| `Belady.NextUseIsFirst` | vre15/oracle.py:162-166 | the next use that Belady's rule compares is a use of the page, and there is none before it |
| `Belady.NextUses` | vre15/oracle.py:162-166 | the array filled from the end holds the first later use of every reference |
| `Belady.PopVictim` | vre15/oracle.py:172-176 | dropping stale heap entries ends at a cached page with the latest next use, and every cached page keeps a live entry |
| `Belady.RunOpt` | vre15/oracle.py:161-179 | for every reference list and every capacity of at least one, the heap algorithm returns the fewest reads any schedule can have |
| `Lru.RunLru` | vre15/oracle.py:74-85 | the loop computes the misses of the cache that keeps the most recently used pages |
| `Lru.LruIsRecent` | vre15/oracle.py:74-85 | a page is cached exactly when fewer than `capacity` other pages were used since its last use |
| `Lru.LruInclusion` | vre15/oracle.py:74-85 | a larger LRU cache always holds everything a smaller one does |
| `Lru.LruMissesAntitone` | vre15/oracle.py:74-85 | more capacity never means more misses |
| `Lru.OptAtMostLru` | vre15/oracle.py:39-41 | the fewest reads are at most LRU's misses |
| `Traces.NextOpen` | vre15/oracle.py:70-71 | the least window start after a moment, or never |
| `EnvelopePolicy.VictimIsFurthestOutside` | vre15/oracle.py:102-114 | the victim is the oldest page of the unauthorized tenant that opens last; only without one is it the oldest page of all, and never for a prefetch |
| `EnvelopePolicy.InsertSpec` | vre15/oracle.py:116-125 | an insertion adds the page and removes at most the victim, within the capacity |
| `EnvelopePolicy.EnvelopeCache.ChooseVictim` | vre15/oracle.py:102-114 | the loop over the tenants returns the specified victim and changes nothing |
| `EnvelopePolicy.EnvelopeCache.Insert` | vre15/oracle.py:116-125 | the object becomes the specified cache, and the per-tenant sets still partition the page order |
| `EnvelopePolicy.EnvelopeCache.Touch` | vre15/oracle.py:99-100 | the page moves to the recent end and nothing else changes |
| `EnvelopeReplay.RunEnvelope` | vre15/oracle.py:128-158 | the loops compute the misses and prefetch reads of the specified replay, in every prefetch mode |
| `EnvelopeReplay.ReplayIsSchedule` | vre15/oracle.py:128-158 | every replay is a legal schedule within the capacity whose reads are its misses plus its prefetches |
| `EnvelopeReplay.OptAtMostEnvelope` | vre15/oracle.py:39-41 | Belady's misses are at most misses plus prefetch reads in every mode, and at most the misses alone without prefetch |
| `EnvelopeReplay.PrefetchMissesBelowOpt` | vre15/oracle.py:136-150 | the misses alone can be below Belady's: one prefetched page saves the only miss |
| `EnvelopeReplay.AnyOpeningBeats` | vre15/oracle.py:136-150 | if any window opens, prefetching whole hot sets misses less than Belady on some references |
| `EnvelopeReplay.MissesBoundExactly` | vre15/oracle.py:136-150 | prefetching whole hot sets, the misses are at least Belady's on all references if and only if no window opens |
| `EnvelopeReplay.ControlEquality` | vre15/oracle.py:116-158 | if everyone is always authorized and nothing is prefetched, cache and misses equal LRU's after every list of references |
| `States.ComputeStateAfter` | vdb_c1/states.py:47-68 | the loop returns the state of the path, or none where it raises |
| `States.TerminalIsAbsorbing` | vdb_c1/states.py:15-26 | no record of any kind is legal after a terminal state |
| `States.FinalizedLanguage` | vdb_c1/states.py:47-68 | a path of binding records ends FINALIZED if and only if it is PREPARED COMMITTING UNCERTAIN\* COMMITTED UNCERTAIN\* FINALIZED |
| `States.AbortedLanguage` | vdb_c1/states.py:47-68 | a path ends ABORTED if and only if it is PREPARED ABORTED or PREPARED COMMITTING UNCERTAIN+ ABORTED |
| `Journals.HeadCommits` | vdb_c1/journal.py:59-84 | two chains with the same hash at a position have the same records up to it |
| `JournalFile.TornTailDropped` | vdb_c1/journal.py:34-57 | after any proper prefix of a further line, opening gives exactly the records before it and cuts the file to their encoding |
| `JournalFile.LoadedIsEncoding` | vdb_c1/journal.py:34-57 | whatever loads is a chain, and the kept bytes are its encoding if and only if they hold no carriage return |
| `JournalFile.CarriageReturnsLoad` | vdb_c1/journal.py:41-56 | a line that ends in CR LF loads and is kept as it is |
| `JournalFile.Journal.Load` | vdb_c1/journal.py:34-57 | opening succeeds exactly on a chain of canonical lines, and repairs only the torn tail |
| `JournalFile.Journal.Append` | vdb_c1/journal.py:59-84 | one encoded line and one record are added, and the file still loads to the records |
| `JournalFile.Journal.AppendTorn` | vdb_c1/journal.py:59-84 | a death inside the write leaves a file that loads to the records before it, whose kept part is the old file |
| `PlainLines.PlainIsLineCodec` | vdb_c1/journal.py:34-57 | a line codec exists that meets everything the journal file assumes |
| `Stores.UpsertEntries` | vdb_c1/state_adapter.py:105-136 | the entries read after an UPSERT are the sorted entries before it without the key, plus the new entry |
| `Stores.PostView` | vdb_c1/verify.py:172-183 | entries that pass the verifier's comparison are the old table with one key set |
| `Stores.StateAdapter.Begin` | vdb_c1/state_adapter.py:105-130 | the transaction sees the conditional UPSERT, or rolls back on a failed precondition or constraint; the committed tables do not move |
| `Stores.StateAdapter.Commit` | vdb_c1/state_adapter.py:130-136 | the open transaction becomes the committed state at once |
| `Stores.StateAdapter.ReadApplied` | vdb_c1/state_adapter.py:87-96 | the row of the intent, or none if there is none |
| `Paths.RunKeepsInv` | vdb_c1/coordinator.py:175-411 | in every run with crashes and outside writers the journal is a chain whose every record follows from the ones before it, and the phase matches the path |
| `Paths.JournaledIsLegal` | vdb_c1/coordinator.py:160-163 | every journaled path is legal, so the state machine never raises |
| `Paths.FinalizedPath` | vdb_c1/verify.py:31-34 | a finalized path is one of the verifier's two |
| `Agreement.RunAgrees` | vdb_c1/coordinator.py:175-411 | in every honest run with crashes the store is the fold of the applied intents, at most one intent is open, and the store is exactly before or exactly after its transaction |
| `Agreement.HonestConfirmSucceeds` | vdb_c1/coordinator.py:287-313 | without outside writers a fresh read of an applied, open intent finds no problem |
| `Agreement.HonestExecuteMutates` | vdb_c1/state_adapter.py:105-136 | without outside writers the transaction of an open, unapplied intent neither fails nor violates a constraint |
| `Finality.TerminalForever` | vdb_c1/coordinator.py:372-411 | the records of a terminal intent are the same in every later state, whatever the store does |
| `Finality.ResubmissionReturnsCertificate` | vdb_c1/coordinator.py:186-192 | in every later state the same signed intent is answered with the stored certificate, and no step that writes anything for it is enabled |
| `Finality.ConflictRefused` | vdb_c1/coordinator.py:186-190 | an id bound to one intent refuses every other payload for good |
| `Finality.AppliedExactlyOnce` | vdb_c1/state_adapter.py:43-51 | over every honest run generations are exactly 1 to the generation, no intent is applied twice, and the table is the fold of the signed UPSERTs in that order |
| `Finality.FinalizedIsApplied` | vdb_c1/coordinator.py:287-324 | FINALIZED means applied under the same hash, ABORTED means not applied |
| `Finality.AbortedNeverApplied` | vdb_c1/coordinator.py:392-411 | an aborted intent is not applied now or ever after |
| `Finality.HonestStepsSucceed` | vdb_c1/coordinator.py:392-411 | in honest runs RecoveryError is unreachable, the transaction always mutates and the fresh read always confirms |
| `Finality.RecoveryDecides` | vdb_c1/coordinator.py:372-390 | at most one intent is ever undecided, and none when recovery has finished |
| `Finality.SecondRecoveryIsIdle` | vdb_c1/coordinator.py:372-390 | until the next submission recovery changes neither journal nor store again |
| `Eee.EnvelopeExists` | vdb_c1/eee.py:70-160 | every terminal record yields an envelope: its status and consumed writes follow from its kind, a completed one commits to the certified post root, and its window is that of the prepared or admitted intent of its id, else the moment of the decision |
| `Eee.ConsumedIsFinalized` | vdb_c1/eee.py:172-175 | the writes consumed over all envelopes are the number of FINALIZED records |
| `Eee.WritesConserved` | vdb_c1/eee.py:104-105 | when recovery has finished, FINALIZED records, applied rows, the generation and the consumed writes are one number |
| `Verifier.CheckChain` | vdb_c1/verify.py:109-117 | the loop with a running hash accepts exactly the chains that go on from the head |
| `Verifier.VerifyCore` | vdb_c1/verify.py:97-200 | the ten checks in order give the first failure |
| `Verifier.VerifyWitness` | vdb_c1/verify.py:203-227 | the witness checks in order give the first failure |
| `Verifier.VerifyBundle` | vdb_c1/verify.py:79-94 | the verdict, with a stage passed exactly when none of its checks fails |
| `Completeness.FinalizedVerifies` | vdb_c1/coordinator.py:433-458 | in every run the bundle of a finalized intent is valid if and only if its recorded admission time is in the window; otherwise exactly that check rejects it |
| `Completeness.WitnessedVerifies` | vdb_c1/verify.py:203-227 | with a countersigned head at or after the finality the same bundle is W1 |
| `Completeness.AcceptedIsJustified` | vdb_c1/verify.py:97-200 | any accepted bundle has a legal finalized path, an intent signed by a trusted authority and admitted in its window, a committed state that is the signed UPSERT of the state it named, and the certificate the coordinator derives from these records |
| `Completeness.OneFinality` | vdb_c1/coordinator.py:438-441 | a journal holds exactly one FINALIZED record of a finalized intent and none of any other |
| `AdmissionTimes.AdmittedFinalizes` | vdb_c1/coordinator.py:175-239 | from any quiet point an admitted submission can run to finality, whatever admission time is recorded |
| `AdmissionTimes.VerdictByReading` | vdb_c1/coordinator.py:210-222 | a finalized intent verifies if and only if the second clock reading, as it is formatted, is in the window |
| `AdmissionTimes.InWindowByClock` | vdb_c1/canon.py:79-81 | with a clock that never goes back and an issue time on a whole millisecond, what was admitted is recorded in the window exactly when the second reading is not formatted to the expiry or later |
| `AdmissionTimes.LateFails` | vdb_c1/coordinator.py:210-222 | an honest run finalizes an intent that expired between the two readings, and its bundle is rejected |
| `AdmissionTimes.CutFails` | vdb_c1/canon.py:79-81 | with a frozen clock, cutting to milliseconds alone moves the recorded time before the window, and the bundle is rejected |
| `AdmissionTimes.RefusalWindow` | vdb_c1/eee.py:78-86 | a refusal under an id that was prepared before has the window of the prepared intent |
| `AdmissionTimes.ConflictTakesWindow` | vdb_c1/eee.py:78-86 | an honest run refuses a second intent under a finalized id, and the envelope of the refusal has the window of the first |
| `Witnesses.Witness.Observe` | vdb_c1/witness.py:120-161 | a journal is countersigned exactly when it reads as a chain, continues the persisted head and every new finality verifies; a refusal changes nothing but the fork evidence |
| `Witnesses.Witness.Covering` | vdb_c1/witness.py:167-169 | the earliest checkpoint at or after a record, or none if there is none |
| `Witnesses.OnlyForward` | vdb_c1/witness.py:120-161 | every later countersigned journal extends every one whose call completed |
| `Witnesses.GenesisFollowsFromHead` | vdb_c1/witness.py:124-131 | the genesis check follows from the head check |
| `Witnesses.BindsExactly` | vdb_c1/witness.py:150-161 | whatever is signed from now on extends a journal if and only if the journal of the last completed call does |
| `Witnesses.CompletionDecides` | vdb_c1/witness.py:150-161 | a call just made binds the future if and only if it completed or signed the persisted journal once more |
| `Witnesses.SameHeadSameHistory` | vdb_c1/verify.py:203-227 | W1 bundles against one head show the same records, and for one intent the same receipt |
| `Witnesses.OneWitnessedOutcome` | vdb_c1/verify.py:196-227 | W1 bundles for one intent under two checkpoints of one witness, the earlier one completed, carry the same receipt |
| `WitnessRuns.FinalityExactly` | vdb_c1/witness.py:120-161 | a record of the coordinator's journal passes the witness unless it finalizes an intent admitted outside its window |
| `WitnessRuns.PersistedFromRun` | vdb_c1/witness.py:120-161 | a witness that signed only journals of one run has persisted a head of that run, whichever of its calls died |
| `WitnessRuns.RefusesExactly` | vdb_c1/witness.py:120-161 | over every run, such a witness refuses the journal exactly when a newly finalized intent was admitted outside its window, and for that reason |
| `Coordinators.AppendIsLegal` | vdb_c1/coordinator.py:160-163 | the state machine allows every record a step appends |
| `Coordinators.Coordinator.Consult` | vdb_c1/coordinator.py:160-163 | the consultation before an append never objects |
| `Coordinators.Coordinator.ConfirmCommit` | vdb_c1/coordinator.py:287-324 | the store is untouched; without outside writers and deaths the intent ends FINALIZED |
| `Coordinators.Coordinator.Finalize` | vdb_c1/coordinator.py:350-354 | exactly one record is appended: FINALIZED, with the certificate over the intent's PREPARED and COMMITTED records |
| `Coordinators.Coordinator.RecoverOne` | vdb_c1/coordinator.py:392-411 | one open intent is taken to a decision or stays uncertain; the store is untouched and, without outside writers, nothing raises |
| `Coordinators.Coordinator.Recover` | vdb_c1/coordinator.py:372-390 | recovery leaves the store alone, and without outside writers it never raises and leaves every intent decided |
| `Coordinators.Coordinator.Transact` | vdb_c1/coordinator.py:224-237 | one transaction leaves the store as it was or as the UPSERT makes it, also when the process dies before or after the commit |
| `Coordinators.Coordinator.SubmitLocked` | vdb_c1/coordinator.py:175-239 | a resubmission changes nothing and answers from the journal; a refusal adds one record that binds nothing; anything else takes effect once or not at all and, without outside writers and deaths, is finalized |
| `Coordinators.Coordinator.Submit` | vdb_c1/coordinator.py:170-173 | the whole call: effect once or not at all, every intent decided on an honest return, a decided intent answered as the journal already had it |
| `Pages.RunsUnique` | vre15/revoke.py:94-102 | only one list of separated runs has given pages, so the runs found are the maximal ones |
| `Revocation.ModifiedPages` | vre15/revoke.py:77-85 | exactly the pages with private state, in order |
| `Revocation.HeldPrivately` | vre15/revoke.py:88-91 | exactly the pages present or swapped, in order |
| `Revocation.RunsOf` | vre15/revoke.py:94-102 | the runs expand to the given pages and are separated if those are sorted |
| `Revocation.Revoke` | vre15/revoke.py:124-148 | what the tenant reads is unchanged, the image holds it, no page is held, and the receipt covers exactly the modified pages with the bytes the image holds; it fails exactly on an empty region or a size mismatch |
| `Revocation.DigestDetermines` | vre15/revoke.py:29-32 | equal receipt digests mean equal runs and equal bytes |
| `Revocation.ReceiptsAgree` | vre15/revoke.py:29-32 | identical writes give identical receipts |
| `Evidence.CheckRuns` | vre15/verify_evidence.py:107-115 | accepts exactly non-empty, ordered, disjoint runs of the region that add up to the page count |
| `Evidence.DigestFromImage` | vre15/verify_evidence.py:136-141 | the digest of the runs as cut from the file |
| `Evidence.ReceiptPasses` | vre15/verify_evidence.py:107-115 | every receipt of a revocation passes, and recomputes from the image it left |
| `Evidence.DigestBindsImage` | vre15/verify_evidence.py:187-197 | an image that recomputes the digest holds, at those pages, what the revocation wrote |
| `Evidence.CheckRecord` | vre15/verify_evidence.py:102-133 | accepts exactly well-formed receipts taken after the authority ended with nothing held |
| `Evidence.VerifyRecords` | vre15/verify_evidence.py:144-197 | the verdict is VALID exactly if there are records, they are ordered and sound and every last receipt recomputes from its image; no records are an incomplete bundle |
| `MappedHosts.AllEdgesMembers` | vre15/host.py:804-807 | the queue holds every window edge of every tenant and nothing else |
| `MappedHosts.ClosedSince` | vre15/host.py:461-467 | a tenant that a pass must checkpoint has a window that closed since the last pass, also with overlapping windows and a late host |
| `MappedHosts.Host.PopDue` | vre15/host.py:809-814 | the due edges, with the rest all later |
| `MappedHosts.Host.Checkpoint` | vre15/host.py:376-397 | the tenant holds nothing and keeps its state, the others are untouched, and the new record keeps the journal acceptable |
| `MappedHosts.Host.Housekeeping` | vre15/host.py:442-467 | after the pass every tenant outside authority at the horizon holds no page; after a warm-up, from its first closed window on; tenants with no closed window are untouched |
| `MappedHosts.WarmedExactly` | vre15/host.py:536-549 | on a host whose warm-up touches every page, a tenant outside authority holds no page after the first pass if and only if one of its windows has closed |
| `MappedHosts.HeldBeforeTheWindow` | vre15/host.py:536-549 | a tenant whose only window lies ahead holds a page outside authority after a pass |
| `MappedHosts.Host.Await` | vre15/host.py:574-588 | the wait ends, with at least one pass, at horizons that never go back |
| `MappedHosts.Host.Handle` | vre15/host.py:589-601 | a request is served exactly under authority, by one step |
| `MappedHosts.Host.Run` | vre15/host.py:574-601 | over every trace each request is served exactly under authority, every served request is one step, and passes are taken for every request |
| `MappedHosts.Host.Integrity` | vre15/host.py:633-648 | no tenant differs from its initial state advanced by its steps |
| `MappedHosts.Host.Audit` | vre15/verify_evidence.py:144-197 | after any run, the offline checks accept the host's records with its images if and only if there is a record |
| `Snapshots.Bitmap` | vre1/snapshot.py:40-49 | a bit is set exactly for a block that is not zero, and exactly those blocks are stored, in order |
| `Snapshots.Scan` | vre1/snapshot.py:108-118 | the pieces are those of the maximal runs of set bits, each with the next stored blocks |
| `Snapshots.Encode` | vre1/snapshot.py:52-68 | the blob frames a header and the payload of the codec; it fails only on an unknown codec or a length over 32 bits |
| `Snapshots.Decode` | vre1/snapshot.py:87-121 | accepts exactly a known header, a matching digest and, for sparse payloads, a bitmap that covers the memory with one block per set bit |
| `Snapshots.DecodedIsTidy` | vre1/snapshot.py:87-121 | sparse runs of any accepted blob are sorted, disjoint, maximal, block-aligned and inside the memory |
| `Snapshots.SnapshotAccepted` | vre1/snapshot.py:52-121 | the blob of every memory of whole Wasm pages is accepted, for every codec |
| `Snapshots.SnapshotRestores` | vre1/snapshot.py:52-121 | its runs, copied into zero memory, are the memory |
| `Snapshots.RestoreInto` | vre1/snapshot.py:139-154 | copies every run into zero memory, or refuses another module, a shrinking memory, or a run that is empty or does not fit |
| `Snapshots.RestoresExactly` | vre1/snapshot.py:139-154 | the runs of a snapshot can be copied back if and only if it is not the raw snapshot of an empty memory |
| `ManagedHosts.Load` | vre15/host.py:329-345 | a file that saves a machine gives back that machine |
| `ManagedHosts.Save` | vre15/host.py:347-354 | demotion writes a file that saves the machine |
| `ManagedHosts.Victim` | vre15/host.py:359-367 | a live tenant that no other precedes in the policy's order |
| `ManagedHosts.OutsideGoesFirst` | vre15/host.py:363-367 | in the envelope policies' order a tenant under authority yields only after every tenant outside it |
| `ManagedHosts.Host.MakeRoom` | vre15/host.py:369-374 | it ends, with room below the cap unless the protected tenant is live; with room it evicts nobody, every evicted tenant yields to every kept one, and under the envelope policies one under authority goes only if nobody outside it stays |
| `ManagedHosts.Host.Sweep` | vre15/host.py:489-493 | exactly the live tenants that are idle too long or, for the envelope policies, outside authority are demoted |
| `ManagedHosts.Host.Prefetch` | vre15/host.py:494-507 | at most one tenant becomes live, only into free capacity, and nobody is evicted |
| `ManagedHosts.Host.Run` | vre15/host.py:574-601 | for every trace, policy and timing, every tenant, live or in its file, is its initial state advanced by its served requests, and the live set stays within the cap |
| `ManagedHosts.Host.Integrity` | vre15/host.py:633-648 | the integrity check reports 0 |
| `PlainFormats.PlainIsOk` | vre1/snapshot.py:52-68 | formats exist that meet everything the managed host assumes |

## Findings

- A finalized intent need not verify. The admission test reads the clock once (`vdb_c1/coordinator.py:277`) and the
  recorded admission time is a later reading (`vdb_c1/coordinator.py:213`). `AdmissionTimes.VerdictByReading` is the
  exact condition, `LateFails` a run that breaks it.
- Formatting alone can break it too: the reading is rounded to microseconds and cut to milliseconds
  (`vdb_c1/canon.py:79-81`), which can move it before the window of an intent issued between two milliseconds
  (`AdmissionTimes.CutFails`), or, within half a microsecond of the expiry, onto it.
- The witness refuses a journal with such a finality too. Over every run that is the only reason it has to refuse the
  coordinator's journal (`WitnessRuns.RefusesExactly`).
- A witness call that dies after writing the checkpoint and before persisting its state leaves a signed head that
  binds nothing: a later completed call may countersign a journal that contradicts it. `Witnesses.BindsExactly` and
  `Witnesses.CompletionDecides` say exactly when a signed head is binding.
- The journal accepts lines that end in CR LF and keeps them, so a loaded file is not always the canonical encoding of
  its records (`JournalFile.CarriageReturnsLoad`); it is exactly when it holds no carriage return
  (`JournalFile.LoadedIsEncoding`).
- The envelope of an admission rejection does not always have the zero-length window of `vdb_c1/eee.py:79-80`: under an
  id that was prepared before it takes the window of the prepared intent. `Eee.EnvelopeExists` says which window it is
  in each case, `AdmissionTimes.ConflictTakesWindow` is a run.
- Misses alone are not bounded by Belady's once pages are prefetched; misses plus prefetch reads are
  (`EnvelopeReplay.OptAtMostEnvelope`). When whole hot sets are prefetched, the misses are bounded if and only if no
  window opens (`EnvelopeReplay.MissesBoundExactly`); `EnvelopeReplay.PrefetchMissesBelowOpt` is one such trace.
- The residency rule holds without any exception when tenants start unmapped. With recorded working sets
  (`vre15/host.py:536-549`) it starts when a window of the tenant closes: `MappedHosts.WarmedExactly` is the exact
  rule, `MappedHosts.HeldBeforeTheWindow` an envelope that breaks the unrestricted one.
- The evidence of a run in which nothing was revoked is rejected as incomplete (`vre15/verify_evidence.py:150-151`):
  `MappedHosts.Host.Audit`.
- The raw snapshot of an empty memory decodes but cannot be restored, since its one run is an empty buffer
  (`vre1/snapshot.py:152`). Every other snapshot can: `Snapshots.RestoresExactly`.

## Left out

- SHA-256, Ed25519, canonical JSON and base64url internals; key files, the command line, SQLite, fsync and locks.
- EnvelopeReplay.MissesBoundExactly: only for whole hot sets. When the last working set is prefetched, no opening
  window is sufficient but not necessary: a single tenant is under authority when its window opens, so nothing may be
  evicted for it, and with room left all it touched is still cached. It never prefetches, although windows open.
- Revocation.Revoke: regions of 2^32 pages or more, whose page numbers do not fit the digest's 32-bit fields, and
  failing system calls.
- Verifier.VerifyBundle: returns which of the two stages passed, not the names of the single checks.
- Coordinators.Coordinator.Recover: does not return the report of what it did.
- Coordinators.Coordinator.Record: a death inside the write of a line is modelled on the journal file, not here.
- Evidence.CheckRecord: the envelope inside a revocation record.
- Evidence.VerifyRecords: the hash chain, signatures, envelopes and duplicate ids of revocation records, which repeat
  the VDB-C1 shape.
- ManagedHosts.Host.Run: housekeeping horizons are arbitrary instead of read from a clock, and ties between victims go
  to the first live tenant.
- Eee.EnvelopeExists: the signatures, gate decisions, identities and effects of an envelope.
- `vre15/host.py` steering policies, the reclaimer and the prefetcher threads, sampling and statistics;
  `vre15/evidence.py`.
- Trace generation, benchmarks, the sandbox supervisor, the HTTP services and scripts.
