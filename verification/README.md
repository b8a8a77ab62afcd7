# goPool in Dafny

goPool is a solo Bitcoin mining pool: it turns a node's block templates into Stratum jobs, checks the shares miners send
back, and submits the share that is a block. This project models its share and block path and proves what the path is
for. The modules follow the program.

- **A solved block is not lost.** `PendingStore`, `BlockDelivery`, `DurabilityProtocol`, `PendingSubmissions`. The
  database and the spool directory are maps, every SQL statement, rename and remove is one atomic step, and a statement
  may fail before or after it has landed. The protocol is a state machine over submits, replays, crashes, restarts and
  recovery; the methods of `BlockStore` are the uninterrupted code, proved against its steps.
- **What a connection remembers.** `DuplicateShares`, `ShareHistory`, `NotifyIds`, `JobTiers`, `JobMemory`. Two bounded
  FIFO tiers with their side tables, the duplicate sets that move when a job is evicted, and IDs that cannot repeat. The
  class `Connection` keeps the maps and lists in place, and every notify it sends keeps them equal to what the whole
  history of notifies leaves of the tiers.
- **Version rolling (BIP 310).** `VersionRolling`, `BlockRescue`. The negotiated mask, the bounded recency list of
  masks, and the search through every plausible reading of a submitted version.
- **The coinbase.** `Payouts`, `CoinbaseScript`, `CoinbaseTx`, `CoinbaseDecode`, `Transactions`. Splitting the reward,
  the tag clamp, the direct serializer, the advertised halves and the rebuild from them, the two decoders, and witness
  stripping (BIP 144). A coinbase is specified as a transaction value and its legacy serialization; every builder is
  proved to write those bytes.
- **Merkle root, header and target.** `Merkle`, `BlockHeader`, `ShareContext`. The branch list against the full tree,
  the reversed scratch header against Bitcoin's layout, byte comparison against numbers, and all of it together for one
  share.
- **Getting jobs to miners.** `JobDelivery`, `DirectBroadcast`, `JobBroadcast`, `BlockHistory`. Bounded queues that drop
  their oldest entry, a direct broadcast that overtakes the queue, the guard against older work, and the history worker,
  as interleaved steps over all runs.
- **Best shares.** `BestShares`. A sorted array of twelve behind a filter that looks before the write lock is taken.

`Bytes` holds what they share: little-endian numbers, variable-length integers and hexadecimal text; `Sequences` holds
two notions about lists. SHA-256 is a parameter: any function from bytes to 32 bytes, and in the durability protocol
any naming of blocks that tells different blocks apart.

## What the code turns out not to do

Each of these has a lemma with a concrete input or run, and where it matters the exact condition.

- A tag of nothing but spaces, once clamped, is normalized again to the longer default and can exceed the limit
  (`CoinbaseScript.BlankTagBreaksLimit`; exactly when: `CoinbaseScript.ClampKeepsLimitIff`).
- Compact bits with an exponent under three give a threshold of zero, because the exponent less three wraps as an
  unsigned byte (`BlockHeader.SmallExponentLosesTarget`; exactly when the threshold is right:
  `BlockHeader.ThresholdIsNominalIff`).
- A direct broadcast can be pushed out of a subscriber's channel by older queued jobs and never arrive
  (`DirectBroadcast.DirectBroadcastCanBeLost`). It is safe exactly when the channel it was put into, with the queued jobs
  still to come added, would hold no more than four (`DirectBroadcast.DirectBroadcastIsSafeIff`), and then the connection
  comes to work on it (`DirectBroadcast.SafeBroadcastIsWorkedOn`); when the channel was empty, four queued jobs are enough, and when it was full, a single one is.
- The block-tip parser finds no height in a block whose coinbase carries witness data
  (`CoinbaseDecode.WitnessCoinbaseHidesHeight`), and neither parser reads the heights 1 to 16.
- Duplicate keys tell shares apart only up to an extranonce2 of 52 bytes (`DuplicateShares.KeysDistinguishIffShort`).
- A row marked submitted is not final, although a comment speaks of a terminal state (pending_submissions.go:416): when
  the block is solved again, the upsert reopens it (`DurabilityProtocol.SubmittedIsReopened`). One step takes a row out of
  that status exactly when it is such a write (`DurabilityProtocol.SubmittedLeavesIff`), and as long as no call on its key
  starts the row stays submitted in every run if and only if no unconfirmed call on its key is under way
  (`DurabilityProtocol.SubmittedIsFinalIff`).

## Model

| member | source | states |
|---|---|---|
| DurabilityProtocol.SolvedBlockIsNeverLost | miner_submit_block.go:133-246 | once a block's exact bytes are in a table row or a valid spool record, every later state of every run still holds them, under any interleaving of submits, replays, failed or ambiguous statements, crashes and restarts |
| DurabilityProtocol.DeliveryFollowsPersistence | miner_submit_block.go:133-191 | a call that has reported its block persisted and is talking to the node really has its bytes in the table or the spool |
| DurabilityProtocol.SubmittedMeansConfirmed | pending_submissions.go:276-355 | a row marked submitted has a moment in the run at which, in a call that was really made on that very block, the node took it, called it a duplicate, or was asked and had it in its chain |
| DurabilityProtocol.AnsweredCallIsSettled | miner_submit_block.go:181-246 | once the node has answered a call whose row is written, the next write takes the row to submitted when the block is delivered and to pending when not, records the evidence, and ends the call |
| DurabilityProtocol.TurnClaimsRow | pending_submissions.go:284-300 | a replay turn that is not backed off and meets no fault makes a pending row submitting and holds it |
| DurabilityProtocol.ClaimIsSettled | pending_submissions.go:300-355 | a held row goes to submitted after the answer null or "duplicate" and back to pending after any other, and the replay moves on |
| DurabilityProtocol.AckedHasWitness | miner_rpc.go:52-131 | whatever a run has recorded as being with the node was confirmed by the node in some call of that run |
| DurabilityProtocol.EvidenceGrowsIffConfirmed | miner_rpc.go:52-131 | a step records a block as being with the node exactly when it is a call the node confirms: a fresh call by an attempt really made, a replay by its one answer |
| DurabilityProtocol.MiningStartsClean | pending_submissions.go:449-469 | when startup hands over to mining no row is submitting, every valid spool record is in the table, and every held block is either pending there or confirmed |
| DurabilityProtocol.RecoveryKeepsRows | pending_submission_spool.go:214-262 | rerunning spool recovery, crashed at any point and any number of times, never changes a row that exists |
| DurabilityProtocol.RecoveryEventKeepsRows | pending_submission_spool.go:307-347 | no single step of the import changes a row that exists |
| DurabilityProtocol.OneDelivererAtATime | pending_submissions.go:417-444 | for freshly solved blocks, while one call delivers a block no other call and no replay is delivering the same one |
| DurabilityProtocol.CollidingKeysLoseABlock | pending_submissions.go:369-412 | counterexample: were two different blocks to share a row key, writing one would lose the other, which is why keys must distinguish blocks |
| DurabilityProtocol.SubmittedLeavesIff | pending_submissions.go:392-406 | a submitted row leaves that status in one step exactly when a live submit call on its key makes its full write (persisting, fallback after a refusal, or logging after a refusal) and the write lands |
| DurabilityProtocol.SubmittedIsFinalIff | pending_submissions.go:392-406 | a submitted row stays so in every run that starts no call on its key, if and only if no unconfirmed call on its key is under way |
| DurabilityProtocol.SubmittedStays | pending_submissions.go:392-406 | in every run: with no unconfirmed call on its key and none starting, a submitted row is submitted to the end |
| DurabilityProtocol.ContestedIsReopened | miner_submit_block.go:206-236 | an unconfirmed call on the key takes the row back when the node stays silent, from whichever step it is at |
| DurabilityProtocol.SubmittedIsReopened | pending_submissions.go:392-406 | counterexample to finality, in every mining state: solving the block of a submitted row again takes the row back to submitting |
| DurabilityProtocol.RunInvariant | miner_submit_block.go:133-246 | the invariant (every recorded row and file is justified, every live call is in a state its records support) survives every run, and what was held stays held |
| DurabilityProtocol.StepPreserves | pending_submissions.go:201-355 | every step of any kind keeps the invariant, and every held block held |
| DurabilityProtocol.ShareStepPreserves | miner_submit_block.go:133-246 | each step of the submit path keeps held blocks held and its own promises |
| DurabilityProtocol.ReplayStepPreserves | pending_submissions.go:276-355 | each step of the replay keeps held blocks held and its own promises |
| DurabilityProtocol.RecoverStepPreserves | pending_submission_spool.go:214-347 | each step of recovery keeps held blocks held |
| DurabilityProtocol.UpsertPreserves | pending_submissions.go:369-412 | an upsert that landed, even with an error reported, leaves the block in the table and loses no other |
| DurabilityProtocol.TransitionPreserves | pending_submissions.go:417-444 | a compare-and-set of a status never touches the bytes of a row |
| DurabilityProtocol.InsertPreserves | pending_submission_spool.go:307-347 | the import inserts a missing row and never overwrites one |
| DurabilityProtocol.ReclaimPreserves | pending_submissions.go:449-469 | reclaiming keeps every held block |
| DurabilityProtocol.WritePreserves | pending_submission_spool.go:66-137 | a spool write that reports success makes the block held, and one interrupted anywhere loses nothing |
| DurabilityProtocol.RemovePreserves | pending_submission_spool.go:153-168 | removing the spool record of a block that is in the table loses nothing |
| DurabilityProtocol.QuarantinePreserves | pending_submission_spool.go:295-305 | setting an invalid spool file aside loses nothing |
| DurabilityProtocol.EvidencePreserves | miner_rpc.go:52-131 | recording the node's replies changes neither rows nor files |
| DurabilityProtocol.ShareStepFootprint | miner_submit_block.go:133-246 | a submit step touches only the row of its own block |
| DurabilityProtocol.ReplayStepFootprint | pending_submissions.go:276-355 | a replay step leaves rows it has not claimed alone |
| DurabilityProtocol.ApartStep | pending_submissions.go:284-300 | no step brings two deliverers of one fresh block together |
| DurabilityProtocol.ApartRun | pending_submissions.go:284-300 | in no run do two deliverers of one fresh block come together |
| PendingSubmissions.BlockStore.HandleBlockShare | miner_submit_block.go:133-246 | for every combination of faults: success is reported exactly when in an attempt made the node has the block; the row ends submitted after success and pending after refusal whenever one of the two writes for it lands, pending when only the repair lands, submitting when none does; without a row one is written with that status, and the spool record goes exactly when that write and the removal succeed |
| PendingSubmissions.BlockStore.SubmitStored | miner_submit_block.go:163-236 | that, from the moment the row is written |
| PendingSubmissions.BlockStore.SubmitUnstored | miner_submit_block.go:163-246 | that, when only the spool holds the block |
| PendingSubmissions.BlockStore.SettleUnstored | miner_submit_block.go:206-246 | what is left in table and spool after the answer |
| PendingSubmissions.BlockStore.PersistBlock | miner_submit_block.go:136-160 | the row is written as submitting, and only when that reports an error the block goes to the spool |
| PendingSubmissions.BlockStore.SettleRow | miner_submit_block.go:181-236 | a submitting row ends in the status of the outcome when the compare-and-set or the full write lands, pending when only the repair does |
| PendingSubmissions.BlockStore.FallBack | miner_submit_block.go:188-236 | the full write gives the row the status of the outcome; when it is lost a submitting row goes back to pending |
| PendingSubmissions.BlockStore.SettleSpool | miner_submit_block.go:206-246 | with no row: write one, and drop the spool record only when that succeeded |
| PendingSubmissions.BlockStore.SpoolAgain | miner_submit_block.go:206-216 | refused and in no row: the spool is written once more before the row is tried |
| PendingSubmissions.BlockStore.SubmitBlock | miner_rpc.go:16-131 | reports success exactly when in an attempt that is made the node has the block, and records just that |
| PendingSubmissions.BlockStore.ReplayPendingSubmissions | pending_submissions.go:276-355 | a scan of pending rows with distinct keys, not backed off and without faults: every row whose call is answered null or "duplicate" ends submitted, every other one pending, exactly those blocks are newly recorded as with the node, and all other rows stay; with faults and skips it goes as the protocol's replay steps |
| PendingSubmissions.BlockStore.ReplayOne | pending_submissions.go:284-355 | one turn of that loop: claim, call, settle or undo |
| PendingSubmissions.SmoothTurnsReplay | pending_submissions.go:276-355 | turn by turn this leaves what the scan promises, whatever the number of rows |
| PendingSubmissions.BlockStore.FinishReplay | pending_submissions.go:300-355 | a claimed row ends in the status its one answer earns when the transition lands, pending when only the repair does, else submitting |
| PendingSubmissions.BlockStore.AppendPendingSubmissionRecord | pending_submissions.go:369-412 | the upsert lands or not independently of the error reported |
| PendingSubmissions.BlockStore.TransitionPendingSubmissionStatus | pending_submissions.go:417-444 | changes exactly a row whose status matches the expected one, and says so |
| PendingSubmissions.BlockStore.ReclaimSubmittingPendingSubmissions | pending_submissions.go:449-469 | without an error no row is left submitting |
| PendingSubmissions.BlockStore.WritePendingSubmissionSpool | pending_submission_spool.go:66-137 | without an error the block has a valid spool record; otherwise nothing, a part, a whole temporary file or an unsynced record is left |
| PendingSubmissions.BlockStore.RemovePendingSubmissionSpool | pending_submission_spool.go:153-168 | removes only the record named by the block's digest; without an error the block has no record left, with one it may be gone or still there |
| PendingSubmissions.BlockStore.RecoverPendingSubmissionSpool | pending_submission_spool.go:214-262 | a listing read and imported without faults, with no two blocks on one key: no file fails, so start-up goes on; every valid record's block is in the table, rows that were there are unchanged, new ones are pending, every listed file is gone, and the count is that of the valid files; with faults it goes as the protocol's recovery steps |
| PendingSubmissions.BlockStore.RecoverListed | pending_submission_spool.go:214-262 | the same loop for every combination of faults: file by file |
| PendingSubmissions.CalmTurnsImport | pending_submission_spool.go:214-262 | file by file this imports the whole listing |
| PendingSubmissions.BlockStore.RecoverOneFile | pending_submission_spool.go:236-258 | one file is read, then quarantined, imported or left, with the fault that each of its statements meets |
| PendingSubmissions.BlockStore.RemoveIfStored | pending_submission_spool.go:328-346 | the stored row is read back, and the file goes exactly when its block is there and the removal succeeds |
| PendingSubmissions.RecoveryPassKeeps | pending_submission_spool.go:214-262 | however a pass goes it loses no held block, and one that lets start-up go on leaves every valid record in the table |
| PendingSubmissions.RecoveryPassOnlyImports | pending_submission_spool.go:214-262 | however a pass goes: existing rows stay as they are, new rows are pending, no file appears or changes |
| BlockDelivery.DeliveredIffFirstDecisiveSucceeds | miner_rpc.go:52-131 | submission succeeds exactly when the first reply that ends the retries is an acceptance or a duplicate |
| BlockDelivery.DeliveredIffNodeHasBlock | miner_rpc.go:146-164 | success is reported exactly when, in an attempt that is really made, the node takes the block, calls it a duplicate, or is asked for its chain and has it there |
| BlockDelivery.SubmitBlockWithFastRetry | miner_rpc.go:16-131 | the loop calls again exactly after "inconclusive", "duplicate-inconclusive" or an empty text, or after a failed call unless it timed out and the block is in the chain; it makes no call after any other reply, and reports success exactly for null, "duplicate", or a block found in the chain after one of those others or a timeout |
| DuplicateShares.ShareKeysInjective | miner_duplicates.go:71-112 | equal keys mean equal extranonce2, time, nonce and version, for extranonce2 up to 52 bytes |
| DuplicateShares.KeysDistinguishIffShort | miner_duplicates.go:71-112 | 52 bytes is exact: keys of shares with longer extranonces can collide |
| DuplicateShares.MakeDuplicateShareKeyDecoded | miner_duplicates.go:71-112 | the key is the first 64 bytes of length, extranonce2, time, nonce and version, zero padded |
| DuplicateShares.SeenIsTruthfulAndRecent | miner_duplicates.go:116-143 | over any sequence: a key is reported seen only if recorded before, and always if among the newest keys the set promises to keep |
| DuplicateShares.PlayIsGood | miner_duplicates.go:116-143 | the order list never repeats a key, never exceeds 100, and is a recent stretch of what was recorded |
| DuplicateShares.AddKeyKeepsGood | miner_duplicates.go:116-143 | one insertion, with its eviction of the oldest ten, keeps that |
| DuplicateShares.DuplicateShareSet.SeenOrAdd | miner_duplicates.go:116-143 | reports membership and appends a new key; map and order list always hold the same keys |
| ShareHistory.EvictionIsInvisible | miner_rejects.go:924-966 | while the grace period of an evicted job lasts, its shares are judged exactly as if the job were live |
| ShareHistory.ShareCaches.IsDuplicateShare | miner_rejects.go:924-966 | a share is a duplicate exactly when its key is in the job's set, live or evicted, and is recorded there otherwise |
| ShareHistory.ShareCaches.StartCache | miner_rejects.go:958-966 | the first share of an unknown job starts a live set |
| ShareHistory.ShareCaches.AdoptCache | miner_rejects.go:958-966 | a new set is entered without touching any other |
| ShareHistory.ShareCaches.AddToSet | miner_rejects.go:944-956 | the set that has the job takes the key, no other set changes |
| ShareHistory.ShareCaches.EvictJob | miner_rejects.go:675-691 | an evicted job's set moves whole to the evicted cache with its time |
| ShareHistory.ShareCaches.ExpireEvicted | miner_rejects.go:692-703 | exactly the sets past the grace period are dropped |
| NotifyIds.NotifyIdsDistinct | miner_auth.go:995-1011 | IDs of different notify counters differ, whatever the base job IDs |
| NotifyIds.NotifyIdShape | miner_auth.go:995-1011 | every ID fits the 128-byte limit and ends in its counter, in base 58, behind the last dash |
| NotifyIds.Base58Injective | miner_conn.go:98-110 | base-58 encodings of different numbers differ |
| NotifyIds.Base58HasNoDash | miner_conn.go:98-110 | no encoding contains a dash |
| NotifyIds.DigitsAreTheAlphabet | miner_conn.go:95 | the digits are those of the alphabet, in its order |
| NotifyIds.ElevenDigitsSuffice | miner_conn.go:98-110 | an 11-character buffer holds every 64-bit number |
| NotifyIds.EncodeBase58Uint64 | miner_conn.go:98-110 | filling the buffer from the back gives the base-58 digits |
| NotifyIds.OneCounterPerId | miner_auth.go:995-1011 | an ID determines the counter it ends in |
| JobTiers.LookupByAge | miner_rejects.go:774-825 | with N recent jobs kept: the last N notifies are found active with everything they advertised; the N before as retired with exactly the job, script time, worker, prefix, suffix, rolling flag and mask they were sent with; older ones not at all |
| JobTiers.UnknownIdIsMissing | miner_rejects.go:774-825 | an ID never notified is not found |
| JobTiers.TiersRefineHistory | miner_rejects.go:621-756 | the active tier is the newest stretch of the notify history and the retired tier the stretch before it |
| JobTiers.TiersAlwaysSound | miner_rejects.go:621-756 | for arbitrary, even reused IDs: both tiers hold at most N entries, repeat no ID and share none |
| JobTiers.NotifyKeepsSound | miner_rejects.go:621-704 | one notify keeps that |
| JobTiers.CountersGiveUniqueIds | miner_auth.go:1346-1353 | a history in which each ID comes from a counter of its own has distinct IDs, so the history theorems apply |
| JobTiers.NotifyCounterSeparates | miner_auth.go:1346-1353 | notify counters are such: different counters never give the same ID |
| JobTiers.HistoryGrows | miner_auth.go:1346-1353 | one more notify under the next counter keeps that, and is one step of the tiers |
| JobTiers.LookupInStretches | miner_rejects.go:774-825 | finding by ID in the two tiers agrees with position in the history |
| JobMemory.Connection.constructor | miner_conn.go:122-125 | an empty memory; a recent-job count of zero stands for ten |
| JobMemory.Connection.TrackJob | miner_rejects.go:621-704 | tracking a job is one notify of the two tiers, in every table at once, and moves the share set of the evicted job |
| JobMemory.Connection.RetireJobLocked | miner_rejects.go:709-739 | a job that can be rebuilt is kept with exactly its job, worker, prefix, suffix, script time, rolling flag and mask, at the end of the retired tier, which is then trimmed |
| JobMemory.Connection.Bind | miner_rejects.go:721-738 | the new binding is the newest of at most N |
| JobMemory.Connection.RemoveRetiredJobLocked | miner_rejects.go:743-756 | a reused ID leaves the retired tier |
| JobMemory.Connection.EvictOldest | miner_rejects.go:662-674 | the oldest active job leaves every active table and is retired |
| JobMemory.Connection.EvictSurplus | miner_rejects.go:658-691 | the eviction loop leaves at most N active jobs and names what it evicted |
| JobMemory.Connection.PutActive | miner_rejects.go:632-656 | a new ID goes to the end, a reused one keeps its place with new contents |
| JobMemory.Connection.ShiftTiers | miner_rejects.go:629-691 | insertion and eviction together are one notify |
| JobMemory.Connection.TrackTables | miner_rejects.go:621-691 | the last job and its ID follow |
| JobMemory.Connection.MoveShares | miner_rejects.go:675-703 | share sets of evicted jobs move, expired ones go |
| JobMemory.Connection.RecordSend | miner_auth.go:1354-1459 | script time and advertised parts are stored under the new ID before it is tracked |
| JobMemory.Connection.NextNotifyID | miner_auth.go:1346-1353 | the counter gives an ID no live job has |
| JobMemory.Connection.Advertise | miner_auth.go:1451-1469 | what is stored and tracked is exactly what is advertised |
| JobMemory.Connection.SendNotify | miner_auth.go:1346-1469 | the tables always hold what all notifies sent so far leave of the two tiers, each under a counter of its own and with both coinbase halves: a notify whose coinbase was built is added to that history, one that failed is not |
| JobMemory.Connection.SendAs | miner_auth.go:1354-1469 | a job that could be built is advertised under the fresh ID; otherwise only its script time stays behind |
| JobMemory.Connection.JobForSubmissionWithLast | miner_rejects.go:774-825 | after any sequence of notifies a submitted ID is answered by its age: the last N exactly as advertised, the N before as retired with the job, script time, worker, prefix, suffix, rolling flag and mask they were sent with, older and unknown ones not at all, with what the last job left |
| JobMemory.FoundIsByAge | miner_rejects.go:774-825 | what the tiers answer is what the age of the ID in the history says |
| VersionRolling.HistoryIsRecent | miner_rejects.go:1711-1744 | the history never repeats a mask, ends in the current one, contains only masks that were active, and misses one only when full |
| VersionRolling.TrimThenRemember | miner_rejects.go:1711-1744 | trimming as one goes keeps exactly the newest distinct masks of the whole activation history |
| VersionRolling.HistoryLimit | miner_rejects.go:1712-1720 | twice the recent jobs, at most 64, and 20 when none are configured |
| VersionRolling.OnesCount | miner_rejects.go:1786-1789 | zero exactly for the empty mask |
| VersionRolling.OnesCountCountsBits | miner_rejects.go:1786-1789 | every one of the 32 bits is counted once |
| VersionRolling.CommonBitByBit | miner_rejects.go:1775 | a bit is in the negotiated mask exactly when pool and miner both have it |
| VersionRolling.Policy.RememberVersionMaskLocked | miner_rejects.go:1711-1744 | the history is the limit's worth of most recent distinct activations, oldest first |
| VersionRolling.Policy.MoveToNewest | miner_rejects.go:1721-1731 | a repeated mask leaves its place, and the mask is the newest |
| VersionRolling.Policy.NegotiateVersionRolling | miner_rejects.go:1757-1795 | rolling is granted exactly when pool and miner masks share a bit; then the mask is their intersection and min bits is at least one and at most its size |
| VersionRolling.Policy.Settle | miner_rejects.go:1769-1795 | the same, once the miner's mask and wish are known |
| VersionRolling.Policy.Deactivate | miner_rejects.go:1776-1785 | denying shows the pool's own mask and drops a queued notification |
| VersionRolling.Policy.Activate | miner_rejects.go:1786-1794 | activation caps min bits and remembers the mask |
| VersionRolling.Policy.UpdateVersionMask | miner_rejects.go:1797-1831 | a new pool mask is intersected with the miner's while rolling is active, min bits becomes one when it was not positive and there are bits, and never exceeds them; a change is reported exactly when something changed |
| VersionRolling.Policy.ShowFinalMask | miner_rejects.go:1815-1830 | the same for the active mask alone |
| VersionRolling.Policy.QueueVersionMaskIfActive | miner_rejects.go:1746-1752 | a mask notification is queued only while rolling is active |
| BlockRescue.ResolveSubmission | miner_submit_process.go:70-138 | with a version supplied, the share is a block exactly when some plausible reading of it wins, and a share that is no block is credited only under its ordinary readings |
| BlockRescue.RescueListComplete | miner_submit_parse.go:148-195 | the rescue list repeats nothing, skips readings already tried, and with those covers every plausible reading |
| BlockRescue.BlockOnlyRescueVersions | miner_submit_parse.go:148-195 | array, spill slice and counter together hold that list in order |
| BlockRescue.ResolveSubmissionContext | miner_submit_process.go:70-138 | the loop finds a winning reading if there is one and otherwise keeps an ordinary one: the first unless it is not acceptable and the alternate is; a winning alternate beats a first that does not win |
| BlockRescue.ReplacedBits | miner_submit_parse.go:95-135 | inside the mask the miner's bits, outside it the job's |
| BlockRescue.FlippedBits | miner_submit_parse.go:95-135 | the bits of the delta turned over, the others kept |
| BlockRescue.ReadingsArePlausible | miner_submit_parse.go:148-195 | the readings offered are exactly the plausible ones |
| BlockRescue.ResolutionIsPlausible | miner_submit_parse.go:95-135 | the ordinary readings are plausible too |
| BlockRescue.AddAllCollects | miner_submit_parse.go:164-192 | collecting candidates keeps the list duplicate-free and loses none |
| BlockRescue.Candidates.Append | miner_submit_parse.go:158-179 | a candidate is appended unless tried or listed, in the array or beyond it |
| BlockRescue.Candidates.AppendAll | miner_submit_parse.go:188-190 | a list of masks is appended in order under the same rule |
| Bytes.ReadVarIntOfVarInt | job_hash.go:297-323 | an encoded number reads back, whatever follows, and exactly its bytes are consumed |
| Bytes.VarIntParsersAgree | accounting.go:109-137 | the slice parser and the cursor parser read the same numbers |
| Bytes.ReadVarIntBound | job_hash.go:297-323 | what is read is a 64-bit number |
| Bytes.PutVarInt | job_hash.go:470-499 | the scratch buffer holds the canonical encoding and its length |
| Bytes.PutLE8 | job_hash.go:488-499 | the prefix byte is followed by the eight little-endian bytes |
| Bytes.HexRoundTrip | job_utils.go:56-68 | hexadecimal text decodes to the bytes it was made from |
| Transactions.StripInvertsSerialization | job_hash.go:359-466 | stripping a witness form gives exactly the legacy form, a legacy form is returned unchanged, and anything after either is rejected |
| Transactions.StripSegwitWith | job_hash.go:359-466 | a witness form with any flag byte, followed by anything: stripped to the legacy form, and accepted only when nothing follows |
| Transactions.StripLegacyWith | job_hash.go:359-466 | a legacy form followed by anything is read as one, and accepted only when nothing follows |
| Transactions.SkipBodyConsumes | job_hash.go:371-418 | parsing inputs and outputs consumes exactly their encoding |
| Transactions.StripWitnessData | job_hash.go:359-466 | the cursor loops compute what the parser on suffixes computes, on every byte string whose announced counts and lengths are below 2^31 |
| Transactions.WalkIns | job_hash.go:378-394 | the cursor passes exactly the given number of inputs, or the loop fails where the parser does |
| Transactions.WalkOuts | job_hash.go:402-418 | the cursor passes exactly the given number of outputs, or the loop fails where the parser does |
| Transactions.WalkStacks | job_hash.go:422-443 | the nested loops pass exactly one witness stack for each input, or fail where the parser does |
| CoinbaseScript.SerializeNumberScript | job_coinbase.go:334-348 | an opcode for 1 to 16; for zero and from 17 a length byte and the number little-endian with its sign bit clear; for negative numbers one byte |
| CoinbaseScript.FillNumber | job_coinbase.go:340-347 | the body is written behind the length byte and fits |
| CoinbaseScript.NumberBodyValue | job_coinbase.go:334-348 | a pushed number that is not negative reads back little-endian and leaves the sign bit clear (BIP 34) |
| CoinbaseScript.Int64NeedsEightBytes | job_coinbase.go:339-347 | nine buffer bytes are enough for every int64 |
| CoinbaseScript.NumberBodyMonotone | job_coinbase.go:334-348 | larger numbers never take fewer bytes |
| CoinbaseScript.Normalize | job_coinbase.go:352-360 | a normalized tag starts with a slash, is the default for messages of nothing but Unicode spaces, and otherwise grows by at most one byte |
| CoinbaseScript.TrimIsEmptyIff | job_coinbase.go:353 | trimming leaves nothing exactly of a message of nothing but Unicode spaces |
| CoinbaseScript.TrimLeavesNoEnds | job_coinbase.go:353 | a trimmed message neither starts nor ends with a Unicode space |
| CoinbaseScript.StringScript | job_coinbase.go:362-378 | one length byte below 253, more above |
| CoinbaseScript.StringScriptHolds | job_coinbase.go:362-378 | the text stands whole at the end, a short one behind its length byte |
| CoinbaseScript.ClampCoinbaseMessage | job_coinbase.go:404-442 | the trimming loop gives the clamped tag or fails, exactly as specified, for every limit and every extranonce2 size |
| CoinbaseScript.ClampBeside | job_coinbase.go:412-442 | the same beside fixed fields of a known length |
| CoinbaseScript.FitTag | job_coinbase.go:420-441 | the loop cuts the tag from its end until it fits |
| CoinbaseScript.ClampKeepsLongest | job_coinbase.go:420-441 | a prefix of the tag fits exactly when it is no longer than what is kept |
| CoinbaseScript.ClampKeepsLimit | job_coinbase.go:404-442 | for messages without Unicode spaces the clamped tag, normalized again by a builder, stays within the limit |
| CoinbaseScript.ClampKeepsLimitIff | job_coinbase.go:404-442 | for all messages, limits and fixed lengths: exactly when it does, which is unless the kept part is nothing but Unicode spaces and the default tag is too long |
| CoinbaseScript.ClampFailsIff | job_coinbase.go:404-418 | clamping fails exactly for an unusable limit or when not even a slash fits |
| CoinbaseScript.BlankTagBreaksLimit | job_coinbase.go:352-360 | counterexample: a tag of one no-break space turns into the longer default |
| Payouts.PayoutsConserveTheReward | job_coinbase.go:75-156 | payouts are not negative and add up to the reward; each fee is its parent's part plus its sub-slices; every fee and share is within half a satoshi of its percentage, or all that those before it left when less than that was left |
| Payouts.EveryScriptIsPaid | job_coinbase.go:91-156 | a paid plan pays slice by slice in order: the slice's script what the parent keeps, every sub-slice's script its share, and last the remainder script the remainder; every script receives in total exactly its parts of the plan |
| Payouts.ComputeSucceedsIff | job_coinbase.go:75-156 | a plan is paid exactly when the reward is positive, all scripts are there, outputs are at most 32 and a required remainder remains |
| Payouts.DualPayoutSucceedsIff | job_coinbase.go:277-292 | one fee and one worker: paid exactly when the worker's exact share is more than half a satoshi, and the fee is never cut |
| Payouts.ComputeCoinbasePayouts | job_coinbase.go:75-156 | fails exactly where the specification does, and else pays the plan: each output at its place with its script and value, the remainder to its script last, positive when required, all adding up to the reward, each fee and share close to its percentage |
| Payouts.SplitFeeSlices | job_coinbase.go:91-143 | the outer loop gives fees, outputs and remainder of all slices, or fails where the specification does |
| Payouts.SplitOneSlice | job_coinbase.go:92-142 | one round: the fee, what the parent keeps, and the outputs of the slice in order |
| Payouts.SplitSubSlices | job_coinbase.go:111-130 | the inner loop gives values and outputs of the sub-slices and what is left for the parent |
| Payouts.SplitSlicesKeeps | job_coinbase.go:84-143 | what the slices do not take is left, and each fee is within half a satoshi of its percentage, or all that the fees before it left |
| Payouts.SplitSubsKeeps | job_coinbase.go:108-130 | what the sub-slices do not take stays with the parent, and each is within half a satoshi of its percentage of the fee, or all that those before it left |
| Payouts.LayOutTotal | job_coinbase.go:132-135 | the outputs of the slices add up to the fees |
| Payouts.Fee | job_coinbase.go:104-107 | within half of the percentage, or all that was left |
| CoinbaseTx.HalvesAndDirectAgree | miner_submit_context.go:5-14 | for every job and extranonce2 of the agreed size: the builder of the halves and the direct serializer succeed or fail together, and then halves around the extranonces, the rebuild from the stored parts and the direct serializer are the same bytes |
| CoinbaseTx.SerializeCoinbaseTxPayouts | job_coinbase.go:201-246 | succeeds exactly for valid payouts and a script of 2 to 100 bytes, and then writes, byte for byte: version 1, one input of 32 zero bytes and index 0xffffffff, the script (height, flags, time, extranonce length, padding, both extranonces, tag) with its length, sequence 0, the outputs, locktime 0 |
| CoinbaseTx.CoinbaseBytes | job_coinbase.go:201-246 | those bytes are the legacy serialization of the transaction value |
| CoinbaseTx.BuildCoinbasePartsPayouts | job_coinbase.go:450-519 | succeeds exactly when flags and commitment decode and the same recipe is buildable, and its halves decode to that transaction around any extranonce2 of the agreed size |
| CoinbaseTx.BuildPartsWithFlags | job_coinbase.go:468-519 | with decoded flags: succeeds exactly when the commitment decodes and the recipe is buildable, with right halves |
| CoinbaseTx.FinishHalves | job_coinbase.go:491-519 | fails exactly for invalid payouts, and otherwise gives two hex halves that fit the transaction |
| CoinbaseTx.BuildCoinbaseOutputs | job_coinbase.go:158-196 | fails exactly for invalid payouts, and otherwise writes commitment and ordered payouts with their count |
| CoinbaseTx.WriteOutputs | job_coinbase.go:175-195 | the bytes are count, commitment and payouts of exactly the specified output list |
| CoinbaseTx.StableOrderIsUnique | job_coinbase.go:163-167 | there is only one descending order that keeps ties, so any stable sort gives the modelled one |
| CoinbaseTx.OrderedKeeps | job_coinbase.go:163-167 | the order is descending and a permutation |
| CoinbaseTx.OrderedIsStable | job_coinbase.go:163-167 | equal values keep their order |
| CoinbaseTx.ClampedTagBuilds | job_coinbase.go:478-481 | with a clamped tag and a four-byte extranonce1 no builder fails on length |
| CoinbaseTx.HalvesFitAll | job_coinbase.go:484-516 | the two halves fit around every extranonce2 of the agreed size |
| CoinbaseTx.WriteHalves | job_coinbase.go:512-517 | hex text that decodes to the halves, padding included |
| CoinbaseDecode.DecodeUndoesBuild | accounting.go:174-304 | decoding a built coinbase recovers version, locktime, outputs, their sum, and the height exactly when it is 0 or 17 to 2^31-1; subsidy and fees split the sum |
| CoinbaseDecode.DecodedOutputs | accounting.go:226-262 | the commitment is the first decoded output and the payouts follow in their order |
| CoinbaseDecode.ShareDecoderRecoversHeightIff | accounting.go:139-157 | exactly which heights the share decoder reads back |
| CoinbaseDecode.BlockTipRecoversHeightIff | job_hash.go:143-186 | the block-tip parser reads back every height from 17 up (and 0) of every block the pool assembles |
| CoinbaseDecode.WitnessCoinbaseHidesHeight | job_hash.go:143-186 | a block whose coinbase carries witness data has no height for that parser |
| CoinbaseDecode.AssembleSolvedBlock | miner_submit_block.go:316-339 | the hex block is header, count, coinbase and all decoded transactions; it fails exactly for a bad header, an empty coinbase or undecodable data |
| CoinbaseDecode.ShareDetail.DecodeCoinbaseFields | accounting.go:174-304 | the cursor loops set exactly the fields the specification sets, on every byte string whose announced counts and lengths are below 2^31 |
| CoinbaseDecode.ShareDetail.DecodeInputs | accounting.go:191-224 | sets the height exactly when all inputs are complete, and goes on to the outputs |
| CoinbaseDecode.ShareDetail.DecodeOutputs | accounting.go:226-289 | sets outputs, locktime and amounts exactly when everything up to the locktime can be read |
| CoinbaseDecode.ShareDetail.SetAmounts | accounting.go:287-297 | total always; subsidy and fees only with a height, fees only when they are not negative |
| CoinbaseDecode.WalkInputs | accounting.go:197-224 | the cursor passes all inputs, and the height is the one the first script shows |
| CoinbaseDecode.WalkOutputs | accounting.go:235-259 | collects every output in order and their running int64 total |
| CoinbaseDecode.DecodeOfLegacy | accounting.go:174-304 | decoding any legacy transaction with one input recovers its version, height, outputs, total and locktime |
| CoinbaseDecode.SubsidyHalves | accounting.go:161-172 | the subsidy starts at fifty coins and halves every 210000 blocks; stopping after 64 eras changes nothing |
| CoinbaseDecode.BytesToInt64 | job_hash.go:231-237 | the shift loop gives the little-endian value as an int64 wraps it |
| CoinbaseDecode.PushedNumberReadsBack | job_hash.go:188-229 | a pushed number comes back through the push parser |
| CoinbaseDecode.SmallHeightsAreRefused | job_hash.go:188-229 | opcode heights do not |
| CoinbaseDecode.TotalOfBuilt | accounting.go:235-243 | the running total of a built coinbase is the sum of its payouts |
| Merkle.BranchesServeEveryCoinbase | job_block.go:14-41 | branches built once with a placeholder give the root of the full tree for every coinbase |
| Merkle.FoldsReachTheBlockRoot | job_block.go:75-105 | the text form of the branches decodes to the branches, and both fold to the root of the block |
| Merkle.RootByLevels | job_block.go:14-41 | the root is that of any next level made of hashed pairs of neighbours, the left one first, a lone last one paired with itself |
| Merkle.BuildMerkleBranches | job_block.go:14-41 | walking the padded array collects those branches; the exit for an empty neighbour is never taken |
| Merkle.WalkLeftEdge | job_block.go:30-39 | the loop collects the second cell of every level, or stops at an empty one |
| Merkle.NeighboursAreBranches | job_block.go:30-39 | every level's second cell is filled and is the branch |
| Merkle.BuildMerkleTreeStore | job_block.go:24 | filling leaves and parents in place gives all levels of the padded tree |
| Merkle.CellIsParent | job_block.go:24 | every inner cell is the parent of the two it covers |
| Merkle.CoversInTree | job_block.go:24 | cell j of the levels above the leaves covers cells 2j and 2j + 1 of the whole array |
| Merkle.UpOfPadded | job_block.go:24 | a padded level's parents are Bitcoin's next level, padded |
| Merkle.ComputeRootFromHex | job_block.go:75-91 | succeeds exactly for a 32-byte hash and decodable branches, with the fold over them |
| Merkle.ComputeRootFromBytes | job_block.go:93-105 | succeeds exactly for a 32-byte hash, with the fold over all branches |
| Merkle.FirstLeafIsFree | job_block.go:19-22 | the coinbase does not affect its siblings |
| Merkle.FoldReachesRoot | job_block.go:75-105 | folding the branches from the first leaf reaches the root |
| BlockHeader.BuildBlockHeaderFromHex | job_block.go:122-182 | succeeds exactly when everything decodes; then version, time, bits and nonce stand little-endian at bytes 0, 68, 72 and 76, the previous hash reversed at 4, the root as it is at 36 |
| BlockHeader.BuildBlockHeader | job_block.go:188-230 | succeeds exactly when root, time and nonce decode, with the same fields at the same places, previous hash and bits from the job |
| BlockHeader.BuildBlockHeaderU32 | job_block.go:234-267 | succeeds exactly for a 32-byte root, with those numbers at those places |
| BlockHeader.ScratchReversedIsCanonical | job_block.go:163-179 | the scratch layout turned around is the canonical header |
| BlockHeader.CanonicalSays | job_block.go:163-179 | the canonical header has every field at its place, read as a number or byte by byte |
| BlockHeader.ReverseInPlace | job_block.go:176-179 | the swap loop reverses |
| BlockHeader.Uint256BELessOrEqual | miner_submit_types.go:25-35 | the byte scan is the numeric comparison |
| BlockHeader.Uint256BEFromBigInt | job_hash.go:63-75 | the 32 bytes are the low 256 bits |
| BlockHeader.IsBlock | miner_submit_context.go:179-189 | a share is a block exactly when its hash, read little-endian, is at most the low 256 bits of the target |
| BlockHeader.ThresholdIsNominalIff | job_hash.go:16-28 | that threshold is what the compact bits mean exactly when the meaning is below 2^256, and zero for exponents under three |
| BlockHeader.BlockTestIsNumeric | job_hash.go:16-28 | for exponents from three and targets below 2^256, winning is being at most mantissa times 256 to the exponent less three |
| BlockHeader.SmallExponentLosesTarget | job_hash.go:16-28 | counterexample: bits of exponent two mean 0x1234 and give a threshold of zero |
| BlockHeader.NamedTargetIsTested | job_validate.go:108-134 | a template that names its target gets exactly that threshold |
| BlockHeader.TargetBytes | miner_submit_context.go:185-188 | target bytes not filled in are worked out again |
| ShareContext.PrepareShareContext | miner_submit_context.go:16-211 | the context of a share: the coinbase rebuilt around its extranonce2, its root, a header with version, previous hash, root, time, bits and nonce at their places, the numeric test; refused exactly for a wrong extranonce2 or missing parts |
| ShareContext.PrepareVersionShareContext | miner_submit_context.go:217-258 | another version redoes only header, again with every field at its place, and test |
| ShareContext.ShareCommitsToItsBlock | miner_submit_context.go:45-58 | the header tested commits to the merkle root of the direct coinbase followed by the job's transactions |
| ShareContext.LateShareRebuildsItsCoinbase | miner_rejects.go:774-825 | a share for any of the last 2N jobs, live or retired, is rebuilt from the bytes that were advertised: stored prefix, extranonce2, stored suffix; when those were the halves of a recipe, that is the coinbase of the recipe |
| JobDelivery.WorkNeverGoesBack | miner_auth.go:1309-1324 | over every interleaving of queued and direct broadcasts, initial work and re-notifies, sent or failed behind the guard, the job a connection works on never gets older |
| JobDelivery.StepNeverGoesBack | miner_auth.go:1544-1555 | no single step makes a connection's job older |
| JobDelivery.QueuedBroadcastsConverge | job_subscribe.go:61-83 | without direct broadcasts, once everything is drained, the last job a subscriber received is the last one published since it started, and it works on that one unless the notify of that very job failed |
| JobDelivery.InitialWorkConverges | miner_conn.go:579-600 | and a subscriber whose initial work was current at some moment after it began to listen works on the newest job, published since or not, unless the notify of that very job failed |
| JobDelivery.MissedOnlyByFailure | miner_auth.go:1309-1365 | a connection on which no notify fails misses none, so that it does work on the newest job |
| JobDelivery.RunKeepsShown | miner_auth.go:1309-1324 | a job taken as initial work stays to be notified until the connection works on it or on a newer one, or its notify fails |
| DirectBroadcast.DirectBroadcastIsSafeIff | job_subscribe.go:88-124 | in every reachable state right after a direct broadcast is sent to a listening subscriber: no run without new jobs loses it there if and only if the channel, with all queued jobs still to come added, would hold at most four |
| DirectBroadcast.SafeBroadcastIsWorkedOn | job_subscribe.go:88-124 | under that bound, in every run without new jobs: once everything is drained the connection works on the directly broadcast job, unless the notify of it failed |
| DirectBroadcast.RoomKeepsAll | job_subscribe.go:88-107 | in every run, new jobs included: while a channel has room for all sends to come, nothing in it is dropped |
| DirectBroadcast.OlderJobsPushOut | job_subscribe.go:88-107 | with more sends to come than room, from whatever state of the pool, some run pushes the job out unreceived |
| DirectBroadcast.FullChannelLoses | job_subscribe.go:88-107 | a full channel can lose any of its jobs to a single send: the listener takes the older ones between the failed send and the drop |
| DirectBroadcast.SentJobIsNew | job_subscribe.go:110-124 | right after its send a directly broadcast job is last in the channel, and neither queued nor seen before |
| DirectBroadcast.RunKeepsNovel | job_refresh.go:129-149 | in every run a direct job is newer than all that waits and all its unserved subscribers have seen |
| DirectBroadcast.QueueDisplaces | job_subscribe.go:88-107 | served from any queue while its listener is busy, a subscriber is left with the newest four of what it had and what came |
| DirectBroadcast.DirectBroadcastCanBeLost | job_subscribe.go:110-124 | counterexample: a direct broadcast is lost for good, with everything drained and the subscriber on an older job |
| JobDelivery.SendLeavesNewestLast | job_subscribe.go:88-107 | when a send is done its job is last in the channel |
| JobDelivery.RetryAlwaysFindsRoom | job_subscribe.go:71-82 | the second attempt after a drop cannot fail, for queue and channels |
| JobDelivery.RunConverges | job_subscribe.go:127-156 | the newest job is the last to come or has reached everyone, after every run without direct broadcasts |
| JobDelivery.RunKeepsInv | job_refresh.go:129-149 | bounds, order and ownership of queue, channels and senders survive every run |
| JobDelivery.StepKeepsInv | job_subscribe.go:61-156 | every step keeps bounds, order and ownership of queue, channels and senders |
| JobDelivery.SendConverges | job_subscribe.go:88-107 | a send keeps the newest job in line |
| JobBroadcast.SendAlone | job_subscribe.go:88-107 | one send left alone displaces at most the oldest entry |
| JobBroadcast.QueueAlone | job_subscribe.go:61-83 | one queued broadcast left alone displaces at most the oldest entry |
| JobBroadcast.Displaced | job_subscribe.go:88-107 | the newest is last and the bound is kept |
| JobBroadcast.JobManager.BroadcastJob | job_subscribe.go:61-83 | the job is queued last, at the cost of the oldest when full |
| JobBroadcast.JobManager.SendJobNonBlocking | job_subscribe.go:88-107 | the job is last in the channel, and a drop is reported exactly when it was full |
| JobBroadcast.JobManager.BroadcastJobSync | job_subscribe.go:110-124 | every subscriber gets the job once |
| JobBroadcast.JobManager.NotificationRound | job_subscribe.go:133-153 | the oldest queued job goes to every subscriber |
| JobBroadcast.JobManager.Publish | job_refresh.go:129-149 | the job becomes current before anyone is told |
| JobBroadcast.JobManager.Subscribe | job_subscribe.go:39-46 | a new empty channel |
| JobBroadcast.JobManager.Unsubscribe | job_subscribe.go:48-53 | only that channel goes |
| BlockHistory.OneWalkAndNoneForgotten | job_manager.go:348-380 | in every run at most one walk is under way, a pending request waits for one, and at rest the last walk was for the greatest generation ever scheduled |
| BlockHistory.TipIsNeverRolledBack | job_manager.go:382-411 | in every run the tip shown is the last raw one or the parent named by a request made after it |
| BlockHistory.CommitInstallsCurrentParent | job_manager.go:382-411 | a commit installs the current job's parent or nothing, and never replaces a different raw tip that arrived after its request |
| BlockHistory.RunKeepsInv | job_manager.go:313-411 | one walk, well-formed requests and a justified tip survive every run |
| BlockHistory.LatestIsScheduled | job_manager.go:327-331 | the recorded latest generation is the greatest scheduled |
| BlockHistory.JobManager.ScheduleBlockHistoryRefresh | job_manager.go:313-346 | queues as the protocol does and starts a worker exactly when none runs |
| BlockHistory.JobManager.NextWalk | job_manager.go:368-378 | hands on the pending request or stops |
| BlockHistory.JobManager.CommitBlockHistoryIfCurrent | job_manager.go:382-411 | commits exactly when allowed |
| BlockHistory.JobManager.RecordBlockTip | job_manager.go:420-441 | a raw tip replaces the shown one and its time joins the last four |
| BestShares.ListIsTheTwelveBest | metrics.go:646-704 | after any shares the list is sorted and its difficulties are the twelve largest recorded, ties counted |
| BestShares.FilterDropsNothingThatRanks | metrics.go:603-616 | what the filter drops would not have ranked whenever its turn came: leaving it out changes nothing |
| BestShares.SortedDownIsSorting | metrics.go:646-704 | the reference is all positive difficulties in descending order |
| BestShares.RecordKeepsRanking | metrics.go:655-681 | one share keeps the list sorted, positive and at most twelve |
| BestShares.RecordAtRank | metrics.go:660-681 | a share that ranks stands at its rank and those behind it moved on by one |
| BestShares.StaysFull | metrics.go:655-658 | recording never lowers the bar |
| BestShares.PoolMetrics.Search | metrics.go:660-662 | the binary search finds the first entry that is not above |
| BestShares.PoolMetrics.ShiftUp | metrics.go:673-675 | every entry from the rank on moves up by one, the others stay |
| BestShares.PoolMetrics.InsertAt | metrics.go:669-680 | the entry stands at its index, those behind it moved on, and the count grew unless full |
| BestShares.PoolMetrics.Place | metrics.go:660-681 | a share that ranks ends up where the ranking puts it |
| BestShares.PoolMetrics.RecordBestShare | metrics.go:646-681 | the array afterwards holds the new ranking |
| BestShares.PoolMetrics.TrackBestShare | metrics.go:595-634 | the filter in front changes nothing |

## Left out

- Payouts.PayoutsConserveTheReward: percentages are exact reals; the rounding of float64 products, NaN and infinities are not modelled.
- Payouts.ComputeCoinbasePayouts: only whether it fails is stated, not which message it gives; the inner and outer loops are methods of their own.
- BestShares.ListIsTheTwelveBest: difficulties are reals, and loading a saved list at startup is not modelled.
- CoinbaseScript.Normalize: messages are bytes; the Unicode spaces are recognized by their UTF-8 bytes.
- NotifyIds.NotifyIdsDistinct: the base of an ID is trimmed of ASCII blanks only; the result does not depend on the base.
- Transactions.StripWitnessData: announced counts and lengths from 2^63 on, which wrap as Go integers, are read as numbers.
- CoinbaseDecode.ShareDetail.DecodeCoinbaseFields: the percent and address of an output are left out, they are display values; announced lengths near 2^63, where adding to the position overflows, are read as numbers.
- CoinbaseTx.SerializeCoinbaseTxPayouts: the script lengths and counts are below 2^31, as everywhere in the model; int overflow on longer lengths is not modelled.
- CoinbaseTx.OrderedKeeps: the library's stable sort is represented by its only possible result, see CoinbaseTx.StableOrderIsUnique.
- BlockHeader.ReverseInPlace: stands for the swap loop of the headers and for the sixteen unrolled swaps of a hash.
- BlockHeader.ThresholdIsNominalIff: the sign bit of the mantissa is read as part of the number, as the code reads it.
- JobDelivery.WorkNeverGoesBack: jobs are ordered by generation, which every job built by the pool has; the creation time used when a generation is missing is not modelled, and a connection that is closed after a failed write is one that goes on.
- JobBroadcast.JobManager.BroadcastJobSync: runs without interference; the interleaved form is in JobDelivery.
- BlockHistory.JobManager.ScheduleBlockHistoryRefresh: the goroutine is a request handed back to the caller; node calls, their timeouts and the callback for new blocks are events of the protocol or left out.
- DurabilityProtocol.SolvedBlockIsNeverLost: block hashes and row keys are assumed to tell blocks apart; metadata columns, error texts and file permissions are left out.
- PendingSubmissions.BlockStore.WritePendingSubmissionSpool: the directory, write, sync and rename calls are one choice among the five things they can leave behind; the write loop is not worked through.
- PendingSubmissions.BlockStore.RemovePendingSubmissionSpool: a file whose removal was not synced does not come back after a crash; it would only be imported once more.
- PendingSubmissions.BlockStore.ReplayPendingSubmissions: the backoff between retries is a nondeterministic skip.
- PendingSubmissions.BlockStore.HandleBlockShare: responses to the miner, metrics and logs are left out.
- BlockDelivery.SubmitBlockWithFastRetry: time is the finite list of attempts the retry window allows.
- JobMemory.Connection.TrackJob: the share sets move after the tiers have shifted, under the same lock; the job's difficulty table, height, previous hash and clean flag are left out.
- JobMemory.Connection.SendNotify: the notify counter is below its 64-bit wrap-around; the coinbase halves are a parameter, missing when the wallet check or the build fails; the guard against older work and the mask update before it are in JobDelivery and VersionRolling.
- JobMemory.Connection.JobForSubmissionWithLast: the last previous hash and height are left out.
- ShareContext.PrepareShareContext: the share of a job whose coinbase was kept; rebuilding the payouts for a job without one is left out, and so is the displayed difficulty.
- BlockRescue.ResolveSubmission: the cost accounting of tasks, logging and the choice of reject reasons are left out.
- Merkle.BuildMerkleTreeStore: the library's padded tree is modelled from its definition.
- Vardiff, hashrate estimates, confidence bands: they rest on floating point and tuned constants.
- Addresses, configuration, ZMQ, HTTP, JSON, SQLite internals, status pages, backups, logging and the text of Stratum messages.
- The dual and triple payout wrappers beyond their plan: they add no branch of their own.
