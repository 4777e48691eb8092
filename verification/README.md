# A verified model of the Incast Governor

The Incast Governor watches many-to-one traffic toward a destination, classifies each evidence window, and
publishes bounded mitigation intents under a lease that a coordinator hands out. This project models its four
stateful parts in Dafny 4.11 and proves properties of whole runs:

- the **governor engine** (`Governance.dfy` on values, `Governor.dfy` as the object with its loops): authority checks,
  classification with hysteresis (`Validation`, `Detect`, `Collisions`, `Authority`, `Ranking`, `Classifier`, and in
  `Verdicts` what a window shows in terms of its rows), synthesis of bounded intents (`Mitigate`, `Mitigation`, and in
  `Plans` what each kind of window gets), the intervention lifecycle (`Lifecycle`), what a window leaves behind
  (`Windows`), what the other calls do (`Calls`), and the invariants of every reachable state (`Safety`, `Runs`,
  `Authorities`, `Dwell`, `Replay`, `Transitions`, `Limits`, `Fairness`, `Relaxation`), with the concrete runs on which a
  promise fails in `Scenarios`;
- the **lease and epoch protocol** (`Leases` as steps and runs, `Coordinator` and `Worker` as objects, `Ledger`);
- the **durable store** (`Journal`, `Durable` on values with the disks a crash may leave, `DurableStore` as the object
  over a directory), tied to the governor in `Continuity`, with concrete losses in `Losses`;
- the **byte layer** under them (`Words`, `Crc32c`, `Codec`, `StateCodec`, `Serializer`, `Transport`).

`dafny verify dfyconfig.toml` verifies everything.

Each object of the program that changes in place is a class whose methods are proved equal to a function on values; the
properties of runs are proved about that function. A run of the governor is a value of `Runs.Run`, so a restored state is
the snapshot of another run, as taken or as the durable store returns it. A run of the coordinator is a sequence of
`Leases.Event` with arbitrary messages, failing ledger writes and restarts. A crash of the store is any disk in the trace
of an operation: an append leaves any prefix, writing a whole file is atomic, and snapshot, rotation and removal are
separate steps.

## Conventions

- Identities, generations, epochs, boots and leases are natural numbers with 0 for "absent"; times are integers of
  nanoseconds with 0 for "absent". Rates and byte counts are 64-bit with saturating arithmetic as in the program.
  Statements that need it say that epochs and stored numbers fit 64 bits.
- Ids that always travel together are grouped: `Origin` (event, destination, window), `Binding` (epoch, boot, worker,
  lease), `PolicyRef` (id, generation).
- Clocks, socket reads, hash-map order, directory order and the success of a ledger write are parameters or free choices.
- `std::sort` is a function with a proof that the sorted list is the only one; an `unordered_map` is walked in any order.
- Runs of fields in the codec are written and read by one loop over a list of field kinds.

## Where the code and its documentation differ

The model follows the code.

- `include/incast/lifecycle.hpp:153-154` says that a single clean window never relaxes an intervention. The verdict of
  `evaluate_recovery` is computed but never consulted; relaxation needs only a recovery window and an enabled recovery
  policy (`Relaxation.RelaxesExactlyWhen`, `Relaxation.CriteriaAreRespectedExactlyWhen`,
  `Scenarios.OneCleanWindowRelaxes`).
- The `README.md` of the repository (lines 78-79) says that protected senders are never penalized. Rows without an
  incarnation are skipped, so a protected row of that kind does not shield its sender
  (`Classifier.PenaltiesSpareProtectedExactlyWhen`, `Scenarios.ShieldedSenderIsPenalized`).
- `include/incast/policy.hpp:75-77` says that mitigation never pushes protected demand below the configured floor. A
  destination-scoped reduction comes out of all demand alike (`Mitigation.AdmissionKeepsProtectedExactlyWhen`,
  `Scenarios.ProtectedDemandIsCut`).
- `src/governor.cpp:482` calls expiry a revalidation boundary. Fencing catches expiry first
  (`GovernorProcess.UnfencedHasNotExpired`).
- `include/incast/coordinator.hpp:174-176` says that a restart never reuses an epoch. A mass revocation raises the epoch
  without storing it, and a failed store leaves it raised (`Leases.RestartIsAboveExactlyWhen`,
  `Leases.RevokeAllReusesAnEpoch`).
- A renewal returns the epoch of the original grant; a worker that adopts it after an epoch advance loses its lease with
  the next publication (`Leases.RenewThenPublish`, `Leases.RenewalCostsTheLease`).
- `src/governor.cpp:113-114` promises that a policy change invalidates live authority. The comparison is with the id and
  generation recorded in the state, which after a restore need not be those of the policy in force
  (`Limits.ConfiguringIsTameExactlyWhen`, `Scenarios.HeldDecisionsMayExceedTheBounds`).
- `src/detect.cpp:468-469` collapses duplicate rows of one identity by a 64-bit key. Two different identities may share
  the key, and then only the first is ranked (`Ranking.EveryoneIsRankedExactlyWhen`, `Ranking.KeysMayCollide`).
- `include/incast/policy.hpp:127` bounds the age of evidence. The bound is compared as a signed number, so one of half the
  64-bit range or more refuses all evidence (`Authority.HugeHorizonsRefuse`).
- Recovery neither removes a torn tail nor skips journals older than the snapshot, and it does not read a journal over
  64 MiB, which 4096 records of up to 256 KiB can exceed (`Durable.CommitsBehindTornTails`,
  `Durable.CheckpointIsRecoveredExactlyWhen`, `Durable.CommitIsRecoveredExactlyWhen`, and the runs in `Losses`).

## Model

| member | source | states |
|---|---|---|
| `Crc32c.RunIsDivision` | src/core.cpp:41-48 | Feeding a register byte by byte with eight conditional shifts is the bit-by-bit reflected division of the message by the Castagnoli polynomial (section 12.1 of RFC 3720) |
| `Crc32c.TableStep` | src/core.cpp:45 | One table look-up xor-ed with the shifted register equals eight single-bit division steps, for every register |
| `Crc32c.BuildTable` | src/core.cpp:22-34 | The nested loops fill entry i with the remainder of byte i, for all 256 bytes |
| `Crc32c.Compute` | src/core.cpp:41-48 | For every byte string the table-driven loop returns the value of the bit-serial division |
| `Crc32c.RunIsInjective` | src/core.cpp:41-48 | No two registers meet again whatever bytes follow, so a difference in the register is never lost |
| `Crc32c.BurstChangesChecksum` | src/core.cpp:41-48 | Altering a message only within four consecutive bytes always changes its checksum |
| `Crc32c.CheckValue` | tests/unit_core.cpp:19-20 | The checksum of the ASCII digits 1 to 9 is E3069283, the check value of CRC-32C |
| `Codec.TakeAfterPut` | src/codec.cpp:11-30 | Every field value that fits its width is read back exactly from what was written, whatever bytes follow |
| `Codec.TakeRunAfterPutRun` | src/codec.cpp:49-91 | A run of fields is read back exactly and leaves the following bytes untouched |
| `Codec.PutRunAfterTakeRun` | src/codec.cpp:49-91 | Reading is the inverse of writing the other way round: rewriting a run that was read gives the bytes it was read from, except for flags, of which any nonzero byte reads as true |
| `Codec.TakeStringAfterPutString` | src/codec.cpp:38-42 | A string survives the codec if and only if it is at most 768 characters long: longer ones are cut on writing |
| `Codec.LittleEndian` | src/codec.cpp:11-30 | Byte i of a stored number is its i-th digit in base 256: the lowest byte comes first |
| `Codec.Writer.PushRun` | src/codec.cpp:11-36 | The growing buffer ends with exactly the encoding of the fields and keeps what it held |
| `Codec.Writer.PushCounted` | src/state.cpp:81-90 | A counted list is appended as its length followed by its items, in order |
| `Codec.Reader.PullInt` | src/codec.cpp:54-79 | The byte loop reads the little-endian number at the position and moves the position behind it, or fails at the end of the data |
| `Codec.Reader.PullRun` | src/codec.cpp:49-91 | Field by field, the reader returns what the format prescribes, with the same error at the same field |
| `Codec.Reader.PullCounted` | src/state.cpp:204-233 | A count beyond its bound is refused before any item is read; otherwise the items are those of the format |
| `Codec.Reader.String` | src/codec.cpp:93-104 | A string is returned with the position behind it, or refused when too long or cut off |
| `Transport.EncodeFrame` | src/transport.cpp:261-288 | A frame is put on the wire as header and payload; a payload over one mebibyte is refused, never cut |
| `Transport.DecodesExactlyEncodings` | src/transport.cpp:312-356 | Bytes decode to a frame if and only if they begin with the encoding of that frame |
| `Transport.RefusedHeaders` | src/transport.cpp:312-339 | A header is refused for the first of its fields that is wrong, and otherwise announces kind, flags, length and checksum |
| `Transport.FramesBegin` | src/transport.cpp:261-288 | Every frame on the wire begins with the letters IGF1 |
| `Transport.PrefixesAreRejected` | src/transport.cpp:341-348 | No proper prefix of an encoded frame decodes |
| `Transport.DamageIsDetected` | src/transport.cpp:349-352 | A payload altered only within four consecutive bytes is always refused with a checksum mismatch |
| `Transport.Connection.ReceiveSome` | src/transport.cpp:219-231 | A read delivers some nonempty prefix of what is still to come, of any size up to the buffer, and nothing at the end |
| `Transport.FramedChannel.Fill` | src/transport.cpp:375-385 | However the bytes are chunked, the loop fills the buffer with the next bytes of the stream or reports its end |
| `Transport.FramedChannel.Receive` | src/transport.cpp:372-416 | For any split into chunks, one receive returns the frame at the front of the stream, or the error the stream calls for, and leaves the rest |
| `Transport.FramedChannel.ReceiveAll` | src/transport.cpp:372-416 | Repeated receiving ends, with exactly the frames the stream holds |
| `Transport.ReceiveIsDecode` | src/transport.cpp:372-416 | Receiving header and payload separately agrees with decoding the bytes at once |
| `Transport.DamageIsSkipped` | src/transport.cpp:372-416 | A damaged payload is refused and the frames behind it are still received |
| `Transport.EndsAreTold` | src/transport.cpp:372-416 | A stream that ends between frames or within a header is reported closed, one that ends within a payload truncated |
| `Transport.StreamRoundTrip` | src/transport.cpp:261-288 | A sequence of frames sent one after the other is received as that sequence, ending in a closed connection |
| `Transport.NothingIsInvented` | src/transport.cpp:372-416 | Every frame received from an arbitrary stream was encoded in it, in that order |
| `StateCodec.IntentRoundTrip` | src/state.cpp:54-244 | An intent with its lists, services and flag word is decoded back exactly |
| `StateCodec.IntentsStandAlone` | src/state.cpp:102-244 | An intent with anything behind it is refused |
| `StateCodec.InterventionRoundTrip` | src/state.cpp:246-386 | A record with its nested, length-prefixed intent is decoded back exactly |
| `StateCodec.InterventionLength` | src/state.cpp:246-277 | No storable record is longer than 25,832 bytes, so the nested length bound is never met |
| `StateCodec.StateRoundTrip` | src/state.cpp:388-629 | A storable state is decoded back exactly through container, checksum, history and nested records, whatever follows |
| `StateCodec.StatePrefixRejected` | src/state.cpp:452-629 | Every strict prefix of an encoded state is refused |
| `StateCodec.AcceptedContainer` | src/state.cpp:452-479 | Bytes are accepted as a state only when they name format and version, declare a bounded length that they cover, and carry the checksum of so many bytes and the generation of the valid state these hold |
| `StateCodec.RefusedContainers` | src/state.cpp:452-479 | A container is refused for the first thing wrong with it: format, version, length, missing bytes, checksum |
| `StateCodec.AcceptedStatesAreStorable` | src/state.cpp:452-629 | Whatever bytes are accepted as a state, the state fits the encoding again and is read back exactly once stored |
| `StateCodec.DamagedStateIsRefused` | src/state.cpp:452-479 | A payload altered only within four consecutive bytes is always refused with a checksum mismatch |
| `StateCodec.StatesBegin` | src/state.cpp:388-450 | Every stored state begins with the letters IGST |
| `StateCodec.EmptyStateIsStorable` | src/state.cpp:388-450 | The state of a new governor can be stored |
| `Serializer.WriteIntent` | src/state.cpp:54-100 | The writer produces the encoding of the intent |
| `Serializer.ReadIntent` | src/state.cpp:102-244 | The reader decodes, and refuses, exactly as the format says, trailing bytes included |
| `Serializer.WriteIntervention` | src/state.cpp:246-277 | The writer produces the encoding of the record, its intent nested |
| `Serializer.ReadIntervention` | src/state.cpp:279-386 | The reader decodes, and refuses, exactly as the format says |
| `Serializer.WriteState` | src/state.cpp:388-450 | The two writers produce the container with the checksum of the payload inside it |
| `Serializer.ReadState` | src/state.cpp:452-629 | The reader checks magic, version, length and checksum in this order and then decodes the payload of the format |
| `Ledger.StoredIsLoaded` | src/coordinator.cpp:468-513 | A stored epoch is loaded back exactly |
| `Ledger.LoadsExactlyEpochs` | src/coordinator.cpp:468-513 | A ledger is loaded as an epoch if and only if it begins with the encoding of that epoch |
| `Ledger.TornLedgerIsRefused` | src/coordinator.cpp:474-476 | A ledger cut short is never read as an epoch |
| `Ledger.Store` | src/coordinator.cpp:501-513 | An absent epoch is refused; a successful write replaces the whole file by the checked encoding, a failed one leaves it |
| `Leases.OneHolderPerDestination` | src/coordinator.cpp:653-708 | At every point of every run, through any messages, failed writes and restarts, at most one unrevoked lease exists for each destination |
| `Leases.RunsAreSound` | src/coordinator.cpp:653-951 | Every step keeps: one holder for each destination, lease numbers below the next one, no lease above the current epoch, the ledger not ahead of memory |
| `Leases.RunExtends` | src/coordinator.cpp:851-945 | Within one process no lease is forgotten or changes hands, revocation is permanent, and neither accepted sequences nor the epoch fall |
| `Leases.Fencing` | src/coordinator.cpp:653-708 | After a lease of a destination is granted, no publication naming any other lease of it on record is accepted at any later point of the same process |
| `Leases.OnlyRequestersPublish` | src/coordinator.cpp:653-936 | Fencing through any failures and restarts: after a destination is granted to one incarnation, a publication under a lease of it is accepted from another incarnation only if that one was granted the destination on its own request in between |
| `Leases.ContendersAreFenced` | src/coordinator.cpp:663-686 | A request from another incarnation ends the holder's lease for good even when the ledger write fails and the request is denied |
| `Leases.RevokedForGood` | src/coordinator.cpp:737-747 | After a mass revocation every lease then on record is dead: at every later point of the process a publication naming it and a renewal of it are answered that the lease is missing |
| `Leases.RevocationIsNotWritten` | src/coordinator.cpp:737-747 | A mass revocation revokes every lease on record, raises the epoch by one, and leaves ledger and numbering as they were |
| `Leases.AdvancesAreWritten` | src/coordinator.cpp:627-637 | An acknowledged advance raises the epoch by one, is loaded back from the ledger of a durable coordinator, and changes no lease; a failed one has raised the epoch all the same |
| `Leases.GrantIsForTheRequester` | src/coordinator.cpp:653-708 | A granted request names the requester and its destination for one full term from now under the current epoch; a refreshed lease keeps its sequence, a new one starts at none |
| `Leases.AcceptedSequencesIncrease` | src/coordinator.cpp:925-934 | Accepted sequence numbers of one lease strictly increase, across any renewals in between |
| `Leases.AcceptedMeansHolder` | src/coordinator.cpp:899-936 | A publication is accepted only under the current epoch, unexpired, from the one unrevoked holder of the destination of its lease |
| `Leases.AcceptedExactlyWhen` | src/coordinator.cpp:899-936 | A publication is accepted if and only if it comes from the unrevoked holder of its lease under the current epoch, in time and with a new sequence number; it then replaces the last decision of that lease and nothing else |
| `Leases.RefusedPublications` | src/coordinator.cpp:899-951 | Every refused publication is answered with its cause in order; one under another epoch, whoever sent it, revokes the lease it names, and the others change nothing |
| `Leases.RenewedExactlyWhen` | src/coordinator.cpp:851-883 | A renewal is granted if and only if the lease is unrevoked and boot and epoch are those of record; it starts the term again and changes nothing else of the grant |
| `Leases.DeniedRenewals` | src/coordinator.cpp:851-867 | A denied renewal names the lease, then the epoch, then the boot |
| `Leases.AcceptedWithinTheTerm` | src/coordinator.cpp:851-936 | In every run from an empty table, restarts included, a publication is accepted only within one term of the last grant or renewal of its lease |
| `Leases.RenewThenPublish` | src/coordinator.cpp:869-910 | A holder that adopts the epoch of its renewal and publishes is accepted if and only if the epoch has not advanced since the grant; otherwise it loses the lease it has just renewed |
| `Leases.RenewalCostsTheLease` | src/coordinator.cpp:869-950 | A concrete run: grant, epoch advance, renewal, publication under the renewed epoch; the holder, alone on its destination, loses its lease |
| `Leases.SupersedingGrantIsNewest` | src/coordinator.cpp:681-700 | A grant superseding another holder carries an epoch above that of every earlier grant |
| `Leases.RestartOutgrowsGrants` | src/coordinator.cpp:533-549 | While ledger writes succeed and nobody revokes everything, every state from a restart on has an epoch above every epoch granted before it |
| `Leases.OldEpochsAreRefused` | src/coordinator.cpp:907-911 | Under the same conditions no publication with the epoch of a grant from before a restart is accepted after it, although lease numbers start over |
| `Leases.RestartIsAboveExactlyWhen` | src/coordinator.cpp:533-549 | Through any messages, failed writes and any number of restarts, the coordinator started next begins above every epoch granted before if and only if no grant is ahead of the ledger: a grant on request is ahead by the raises of its process that did not reach the ledger, and every raise that does and every restart makes up for what it adds to the ledger |
| `Leases.StartsAreCurrent` | src/coordinator.cpp:525-552 | A durable start over a readable ledger stores the greatest of 1, the configured epoch and one above the epoch on disk, and begins without leases |
| `Leases.RevokeAllReusesAnEpoch` | src/coordinator.cpp:737-747 | A concrete run: revoke all, grant, crash; the restarted coordinator is at the epoch of that grant again |
| `CoordinatorProcess.Coordinator.Begin` | src/coordinator.cpp:525-552 | Starting over any ledger on disk gives the start state of the protocol; an unreadable ledger stops it |
| `CoordinatorProcess.Coordinator.FenceOthers` | src/coordinator.cpp:662-679 | Whatever order the hash map yields, the scan finds the requester's own lease and changes nothing, or revokes every contending lease and says whether there was one |
| `CoordinatorProcess.Coordinator.GrantLease` | src/coordinator.cpp:653-708 | The handler is the grant step of the protocol: refresh, first grant, supersede with a raised and stored epoch, or failure after the revocation |
| `CoordinatorProcess.Coordinator.RenewLease` | src/coordinator.cpp:851-883 | The handler is the renewal step: the times move, the epoch of the grant does not |
| `CoordinatorProcess.Coordinator.Publish` | src/coordinator.cpp:899-951 | The handler is the publication step, with the reasons in the order of the program and the lease revoked on a superseded epoch |
| `CoordinatorProcess.Coordinator.AdvanceEpoch` | src/coordinator.cpp:627-637 | The epoch rises in memory first and stays raised when the ledger write fails |
| `CoordinatorProcess.Coordinator.RevokeAll` | src/coordinator.cpp:737-747 | Every lease is revoked and the epoch raised without writing the ledger |
| `Worker.AcquireThenPublish` | src/coordinator.cpp:1035-1159 | A worker that has just acquired a lease publishes successfully if and only if the lease has not expired and its next sequence number is unused |
| `Worker.FencedWorkerReacquires` | src/coordinator.cpp:1072-1159 | A worker behind an epoch advance has its publication refused and loses the lease, cannot renew it, and is restored by acquiring again |
| `Worker.AcquiringCatchesUp` | src/coordinator.cpp:1035-1070 | After asking for a lease the worker believes the coordinator's epoch, is fenced if and only if it was granted none, and otherwise holds what is on record |
| `Worker.RenewingKeepsExactlyWhen` | src/coordinator.cpp:1072-1105 | A worker keeps its lease by renewing if and only if it is on record for its boot and the worker knows the epoch; it is fenced at the coordinator's epoch otherwise |
| `Worker.PublishingFencesExactlyWhen` | src/coordinator.cpp:1107-1159 | Publishing uses up a sequence number and fences the worker if and only if its lease is on record under another epoch or for another incarnation |
| `Worker.GovernorWorker.AcquireLease` | src/coordinator.cpp:1035-1070 | The worker adopts lease and epoch of a grant, or marks itself fenced at the coordinator's epoch |
| `Worker.GovernorWorker.RenewLease` | src/coordinator.cpp:1072-1105 | A renewal adopts the epoch the grant carries and does not lift the fence |
| `Worker.GovernorWorker.Publish` | src/coordinator.cpp:1107-1159 | Every publication uses a new sequence number; a refusal for epoch or boot fences the worker at the coordinator's epoch |
| `Worker.GovernorWorker.SendHeartbeat` | src/coordinator.cpp:1161-1179 | A heartbeat that reveals another epoch fences the worker |
| `Model.SaturatingIsCapped` | include/incast/core.hpp:235-246 | The saturating operations are the exact ones capped at the largest 64-bit number |
| `Model.RatioIsFloor` | include/incast/model.hpp:116-123 | Below saturation a ratio is the exact quotient in basis points, rounded down and capped |
| `Collisions.CollidedReports` | src/detect.cpp:93-144 | The collision list is strictly ascending by sender with exactly one entry, of the right kind and count, for each sender whose usable rows disagree |
| `Collisions.CollisionsForgetOrder` | src/detect.cpp:93-144 | Permuting the rows does not change the collision list |
| `Collisions.DetectCollisions` | src/detect.cpp:93-144 | The map of aggregates, walked in any hash order and sorted, yields that list |
| `Collisions.AggregateJudges` | src/detect.cpp:117-131 | The aggregate of a sender decides between no collision, several incarnations and contradictory attributes as the rows do |
| `Detect.WorstIsWorst` | src/detect.cpp:204-222 | The chosen queue has the highest pressure, among those the lowest number, and came first among those |
| `Detect.ComputeMetrics` | src/detect.cpp:146-234 | The passes over rows and queues compute the metrics of the window |
| `Detect.ComputeTally` | src/detect.cpp:159-185 | The accumulating loop equals a fold of commuting steps over the usable rows |
| `Detect.ComputeSynchronization` | src/detect.cpp:238-298 | The two passes count the early senders and what they offer, and combine them into the verdict |
| `Detect.MetricsForgetOrder` | src/detect.cpp:159-298 | Permuting the sender rows changes neither metrics nor synchronization |
| `Detect.ArrivalsSpan` | src/detect.cpp:170-180 | The earliest and the latest arrival are arrivals of usable rows and all others lie between them |
| `Detect.UnusableRowsDoNotCount` | include/incast/ids.hpp:150-155 | A row counts if and only if it names both a sender and its incarnation; any other leaves every total alone |
| `Detect.SynchronizedLeavesNobodyOut` | src/detect.cpp:255-296 | A population judged synchronized meets the floor and has no timed usable sender outside the synchronization window |
| `Detect.ProtectedExactlyWhen` | src/detect.cpp:56-59 | A sender is protected if and only if it has an explicit obligation that the policy honours, or its class stands above the strongest one that may be mitigated |
| `Verdicts.TallyCounts` | src/detect.cpp:159-185 | The pass counts the usable and the protected rows and the distinct flows, and sums demand, protected demand and outstanding bytes up to the largest 64-bit number |
| `Verdicts.SpreadIsMeasured` | src/detect.cpp:170-201 | The spread is the widest distance between two arrivals of usable rows, the earliest arrival is one that none precedes, and both are 0 without arrivals |
| `Verdicts.QueuesAreMeasured` | src/detect.cpp:204-222 | The measures of the queues are those of a fullest one, against the destination's own capacity when it declares none, and 0 without queues |
| `Verdicts.WindowIsMeasured` | src/detect.cpp:146-234 | Every measure of a window in terms of its rows: populations, demand, protected demand, headroom, ratio of demand to service, width, saturation and collisions |
| `Verdicts.SynchronizationIsMeasured` | src/detect.cpp:238-298 | The report counts the rows that arrived within the bound of the first one, the share of demand they offer, and how much of the window the arrivals leave free |
| `Verdicts.SynchronizedExactlyWhen` | src/detect.cpp:238-298 | A population is judged synchronized if and only if it is large enough, its arrivals lie within the bound and compressed in the window, and the rows with an arrival offer enough of the demand |
| `Authority.CheckAuthority` | src/detect.cpp:302-396 | The loop over the evidence classes returns the first denial in class order and the state of every class |
| `Authority.GrantedExactlyWhen` | src/detect.cpp:302-396 | Authority is granted if and only if the policy is enabled, the bundle well formed, every required class present, and the required bindings carried |
| `Authority.AuthorityWithoutHistory` | src/detect.cpp:537-554 | A bundle accepted against the recorded sequences is accepted without them, so the second check inside the classifier never refuses it |
| `Authority.ReplayIsDenied` | src/detect.cpp:343-369 | A required class that repeats an accepted sequence number denies authority |
| `Authority.StampsInOrder` | src/detect.cpp:15-27 | The eight classes in their order and the stamp each is judged by; destination and capacity share one |
| `Authority.PresentExactlyWhen` | src/detect.cpp:322-359 | A class of evidence is present if and only if it was observed by now, not too long ago, is still valid, of the window, newer than what was accepted, and says something |
| `Authority.AbsenceIsNamed` | src/detect.cpp:322-359 | Evidence that is not present is absent for the first thing wrong with it: what it says of itself, its time, its age, its window, its sequence |
| `Authority.SilenceIsNamed` | src/detect.cpp:347-354 | Timely evidence is absent only as capacity without a rate or provenance without a source |
| `Authority.HugeHorizonsRefuse` | src/detect.cpp:335-339 | Under a freshness horizon of half the 64-bit range or more no evidence is ever present |
| `Authority.EveryClassIsTold` | src/detect.cpp:302-396 | Whatever the check decides, it tells the state of every class |
| `Authority.DenialIsTheFirst` | src/detect.cpp:363-371 | A denial is the refusal of the first required class that is not present |
| `Authority.BindingsAreNamed` | src/detect.cpp:380-394 | A bundle that passes its evidence is refused for the first binding that the policy requires and it lacks |
| `Ranking.RankContributions` | src/detect.cpp:446-522 | The pass with its set of seen keys, sorted, is the ranking of the first rows of each key |
| `Ranking.RankedAreRows` | src/detect.cpp:467-510 | Every ranked contribution comes from a usable row, and no identity is ranked twice |
| `Ranking.HeaviestFirst` | src/detect.cpp:512-520 | The ranking is in descending order of demand, and equal demands by incarnation, flow and sender |
| `Ranking.ContributionsMeasure` | src/detect.cpp:480-508 | A contribution carries its row's shares of demand and of service and its distance from the first arrival |
| `Ranking.EveryoneIsRankedExactlyWhen` | src/detect.cpp:467-476 | Every identity with a usable row is ranked if and only if no two different ones share a 64-bit key |
| `Ranking.KeysMayCollide` | src/detect.cpp:467-476 | Two concrete usable identities that share the key, so that only the first is ranked |
| `Ranking.MitigableIsSafe` | src/detect.cpp:464-510 | A mitigable contribution names a sender none of whose usable rows is protected or of another incarnation, even when duplicate rows disagree |
| `Ranking.MitigableIsUnshieldedExactlyWhen` | src/detect.cpp:467-510 | For every window: the mitigable contributions name only senders without any protected row if and only if no counted, timely, unprotected row of a sender without collision has a protected row without an incarnation beside it |
| `Scenarios.ShieldedSenderIsPenalized` | src/detect.cpp:467-510 | A concrete window with two usable synchronized senders under a valid policy: the governor penalizes by name a sender that a row without an incarnation declares protected |
| `Ranking.RankingForgetsOrder` | src/detect.cpp:467-520 | With pairwise distinct keys, permuting the rows does not change the ranking |
| `Classifier.Classify` | src/detect.cpp:524-602 | The classifier refuses, classifies, holds or steps down, and ranks as the window and its context call for |
| `Classifier.PressureOnlyEscalates` | src/detect.cpp:398-444 | More pressure in every measure lowers neither what a window shows nor how severe it is |
| `Verdicts.ClassifiedExactlyWhen` | src/detect.cpp:398-420 | A window shows an active incast if and only if enough senders are synchronized and demand, the fullest queue or its drops reach their thresholds; a risk if and only if demand is between risk and collapse without that; no fan-in when senders are few; and ordinary traffic otherwise |
| `Verdicts.FullQueuesCollapse` | src/detect.cpp:410-414 | One looked-at queue at the pressure threshold is enough, whatever the demand |
| `Verdicts.SeverityExactlyWhen` | src/detect.cpp:422-444 | The severity of a window: critical if and only if it is an active incast with collapsing demand, a queue at 95 percent or drops at the threshold; severe, elevated and advisory likewise exactly |
| `Verdicts.HeldExactlyWhen` | src/detect.cpp:563-582 | A window below the previous one is held at it until the dwell is met; then an active incast steps down to recovery unless the window is a risk, and everything else is taken as it is |
| `Verdicts.UnauthoritativeExactlyWhen` | src/detect.cpp:537-554 | A window without authority is unknown, names the reason and ranks nobody, and every other window is judged |
| `Verdicts.CallersNameCollisions` | src/detect.cpp:555-557 | Collisions found by the caller take the place of the window's own, in the metrics and in the ranking |
| `Classifier.DeEscalation` | src/detect.cpp:563-582 | A window leaves an incident only when it is itself clean and the dwell is met, and an active incast never drops straight to ordinary traffic |
| `Classifier.EscalationIsImmediate` | src/detect.cpp:563-582 | A window at or above the prior rank is taken as it is |
| `Classifier.PenaltiesSpareProtectedExactlyWhen` | src/detect.cpp:524-602 | In every window that is classified, the contributions that may be penalized name only senders without any protected row if and only if no counted row bypasses a protected row without an incarnation |
| `Classifier.ClassificationForgetsOrder` | src/detect.cpp:524-602 | With distinct keys a window classifies the same whatever order its rows come in |
| `Mitigate.ClampingBounds` | src/mitigate.cpp:89-122 | Clamping brings every component within the bounds and leaves alone exactly what was within them |
| `Mitigate.Clamp` | src/mitigate.cpp:89-122 | The chain of assignments is the clamp, and it flags exactly the intents it moved |
| `Mitigate.GatherMitigable` | src/mitigate.cpp:308-323 | The loop with its early exit gathers the first mitigable contributions up to the limit |
| `Mitigate.SynthesizeRecovery` | src/mitigate.cpp:249-291 | The recovery branch relaxes by one step or retires the prior intent |
| `Mitigate.Synthesize` | src/mitigate.cpp:124-448 | Synthesis refuses in the order of the program and otherwise composes the intent of its branch |
| `Mitigation.AuthorizedIsWithin` | src/mitigate.cpp:89-122 | Every authorized intent lies inside every bound of the policy |
| `Plans.RequiredIsTheExcess` | src/mitigate.cpp:294-302 | The required reduction is the demand beyond what the destination is to be left with: its service rate, or for an active incast the relaxed share of it |
| `Plans.PoolIsTheFirst` | src/mitigate.cpp:308-323 | The penalized senders are the first of the mitigable contributions up to the limit, with their demand summed and their classes listed |
| `Plans.HeaviestAreNamed` | src/mitigate.cpp:308-323 | Whoever may be penalized and is not named offers no more than anyone who is, and nobody is left out below the limit |
| `Plans.ScopedExactlyWhen` | src/mitigate.cpp:305-377 | Demand is taken from senders if and only if someone who may be penalized offers something and the population is known or the policy does not mind; otherwise from the whole destination |
| `Plans.StructuralIsRoom` | src/mitigate.cpp:327-341 | An active incast with nothing to remove is authorized as a headroom adjustment in queue scope: what the watermark leaves of the queue, or a quarter, up to the maximum, with staggering slots, naming nobody and reducing no rate |
| `Plans.SenderScopedIsSlowing` | src/mitigate.cpp:348-361 | A sender-scoped intent names the pool and its classes, by priority in an active incast and staggered in a risk, and is an escalation when nothing can be taken |
| `Plans.DestinationScopedIsAdmission` | src/mitigate.cpp:362-377 | A destination-scoped intent names nobody and reduces admission alone |
| `Plans.RefusedExactlyWhen` | src/mitigate.cpp:324-438 | An incident window is refused if and only if it is a risk with nothing to remove, or not all of it can be removed, something is to be kept for protected traffic and the policy does not escalate |
| `Plans.OtherwiseRefused` | src/mitigate.cpp:193-248 | A window that is no incident gets nothing, each kind for its reason, and a recovery is authorized if and only if there is an active intent to relax and the policy enables it |
| `Plans.ComposedIsFor` | src/mitigate.cpp:155-191 | A composed intent carries the origin, policy and authority of its window, runs from its instant for its duration, says what it removes and leaves, and nothing of it had to be clamped |
| `Plans.ComposedIsAboutTheWorstQueue` | src/mitigate.cpp:171-186 | It is about a fullest queue of the bundle, or the destination's own resource without one |
| `Plans.DurationIsGraded` | src/mitigate.cpp:396-399 | Each grade of severity adds a quarter of the way from the shortest to the longest duration |
| `Plans.RelaxedIsThePrior` | src/mitigate.cpp:249-291 | A recovery step changes the reduction and the term of the prior intent alone, and the last one keeps only what the intent was about |
| `Mitigation.FreshPenalizesSafely` | src/mitigate.cpp:305-321 | A fresh intent penalizes each identity once, and none whose sender has a usable row that is protected or of another incarnation |
| `Mitigation.LeastReduction` | src/mitigate.cpp:348-352 | The clamped ceiling is the least value in range whose floored effect covers the required reduction, or the maximum when none does |
| `Mitigation.SenderScopedIsLeast` | src/mitigate.cpp:302-409 | Without saturation: the reduction is least, the intent is insufficient exactly when the ceiling need exceeds the maximum, and what remains never falls below the protected demand |
| `Mitigation.PoolLeavesProtected` | src/mitigate.cpp:308-323 | The penalized pool and the protected demand fit into the demand of the window together |
| `Mitigation.AdmissionDoesNotOvershoot` | src/mitigate.cpp:362-374 | A destination-scoped reduction names nobody and is the greatest in range that removes no more than required, or the least of the range |
| `Mitigation.AdmissionKeepsProtectedExactlyWhen` | src/mitigate.cpp:362-409 | What a destination-scoped reduction leaves is at least the protected demand if and only if the reduction by the planned basis points fits into the unprotected demand, and at least the protected floor if and only if it fits into the demand beyond the floor |
| `Scenarios.ProtectedDemandIsCut` | src/mitigate.cpp:362-374 | A concrete truncated window: the governor issues a destination-scoped reduction that leaves half of the protected demand, below the protected floor, without escalating |
| `Mitigation.DurationFollowsSeverity` | src/mitigate.cpp:396-399 | Durations stay within the policy's range, grow with severity, and reach both ends of the range |
| `Mitigation.RecoveryLowers` | src/mitigate.cpp:249-291 | A recovery step strictly lowers an active reduction and keeps it at the minimum or more, or retires the intervention |
| `Mitigation.RecoveryIsLinear` | src/mitigate.cpp:249-291 | A reduction r is retired within max(1, r / minimum) recovery steps |
| `Mitigation.RecoveryIsLogarithmic` | src/mitigate.cpp:249-253 | It is retired within k + 3 steps as soon as (r - 3) * 3^k < (4 * minimum - 3) * 4^k: each step takes a quarter |
| `Mitigation.RecoveryRetires` | src/mitigate.cpp:249-291 | Repeated recovery under a fixed valid policy retires the intervention at exactly its last step and not before |
| `Lifecycle.LiveMayEnd` | src/lifecycle.cpp:11-41 | Every live state may be retired, fenced and revalidated, so the forced assignments behind these transitions never take effect |
| `Lifecycle.TerminalExits` | src/lifecycle.cpp:11-41 | The only legal way out of a terminal state is from Retired to Revalidating |
| `Lifecycle.LegalExactlyFrom` | src/lifecycle.cpp:11-41 | The transition table read backwards, for every state the states it may be entered from |
| `Lifecycle.TransitionsChange` | src/lifecycle.cpp:43-69 | A legal transition sets state and time, counts a relaxation or keeps a refusal's detail, and changes nothing else |
| `Lifecycle.EpochTracker.Advance` | src/lifecycle.cpp:110-119 | The tracked epoch moves forward only |
| `GovernorProcess.Governor.ConfigurePolicy` | src/governor.cpp:102-131 | An invalid policy changes nothing; a new id or generation sends every live record to revalidation under it |
| `GovernorProcess.Governor.BindAuthority` | src/governor.cpp:143-163 | Authority is bound only when complete |
| `GovernorProcess.Governor.RestoreState` | src/governor.cpp:184-216 | A valid state replaces the whole state, drops the authority and revives nothing |
| `GovernorProcess.Governor.Reset` | src/governor.cpp:218-230 | The governor is as constructed, under its present configuration |
| `GovernorProcess.Governor.Retire` | src/governor.cpp:237-250 | The first record with the identity is retired, or the call refused for the reason of the program |
| `GovernorProcess.Governor.Shutdown` | src/governor.cpp:252-272 | Every live record is retired and counted, and nothing is accepted any more |
| `GovernorProcess.Governor.Evaluate` | src/governor.cpp:284-699 | One evaluation in place equals the evaluation on values: refusal, fence, hold, synthesis, and the record of the window |
| `GovernorProcess.Governor.Hear` | src/governor.cpp:380-399 | The accepted sequences become the higher of old and new in each class, or start over for another boot |
| `GovernorProcess.Governor.ApplyToLive` | src/governor.cpp:589-655 | The branches on a live record continue, relax, retire or leave it as the synthesized intent calls for |
| `GovernorProcess.Governor.Trim` | src/governor.cpp:47-61 | Over the bound the live records come first and then the newest others, newest first |
| `Validation.ValidatePolicy` | src/policy.cpp:13-116 | The chain of checks accepts exactly the policies that satisfy every condition |
| `Validation.ValidateBundle` | src/model.cpp:29-38 | The chain of checks accepts exactly the well-formed bundles |
| `Validation.ValidateState` | src/governor.cpp:73-89 | The loop accepts exactly the states within the bounds whose records have identities and bounded intents |
| `Calls.ConfiguringSendsBack` | src/governor.cpp:102-131 | A valid policy is in force from then on; with a new id or generation each live record awaits revalidation under it; nothing else changes, and nothing at all for an invalid one |
| `Calls.BindingIsComplete` | src/governor.cpp:143-163 | Authority is bound if and only if no part of it is absent, and nothing else changes |
| `Calls.RetiredExactlyWhen` | src/governor.cpp:237-250 | In a sane table a record is retired if and only if it is live, the refusal says whether it was unknown or over, and no other record changes |
| `Calls.RestoringKeeps` | src/governor.cpp:184-216 | A valid state takes the place of the governor's own, table, sequences and counters included, without authority or streaks and with each live record awaiting revalidation |
| `Calls.ResettingForgets` | src/governor.cpp:218-230 | After a reset nothing seen remains, and configuration and authority do |
| `Calls.ShuttingDownRetires` | src/governor.cpp:252-272 | A shutdown retires each live record, clears streaks and recovery, and changes nothing else but that no bundle is accepted any more |
| `Calls.UnfencedExactlyWhen` | src/lifecycle.cpp:71-108 | Under complete authority a record goes unfenced if and only if it carries that authority and no other worker's, within the lease and within its own term; the reason otherwise is the first thing that differs |
| `Calls.GateNamesTheReason` | src/governor.cpp:317-353 | The refusal names what the bundle differs in, in the order of the program |
| `Windows.RefusedWindow` | src/governor.cpp:284-353 | A refused window changes two counters, and its decision carries the reason and no intent |
| `Windows.FencedWindow` | src/governor.cpp:449-481 | A window that fences the live record changes that record and the counters alone; its decision names the record and the reason |
| `Windows.RecordedWindow` | src/governor.cpp:657-699 | A recorded window raises the destination generation to the bundle's when that is newer, counts itself, and numbers only what it issues |
| `Windows.OlderGenerationsAreRefused` | src/governor.cpp:332-335 | After a window of some generation of the destination is recorded, every bundle of an earlier generation is refused at every later point until a reset or restore, as stale once it gets that far |
| `Windows.SequencesAdvance` | src/governor.cpp:380-399 | After every window not refused the accepted sequence of each class is the higher of the bundle's and that of the same boot |
| `Windows.StreaksCount` | src/governor.cpp:403-447 | Streaks and recovery accounting after every window not refused, in terms of the window alone |
| `Windows.VerdictExactlyWhen` | src/governor.cpp:403-427 | The kind of every accepted window: the last one's while it shows less and not for long enough, then a recovery after an active incast unless it shows a risk, a recovery for any other calm window with an intervention live, and otherwise what it shows |
| `Windows.HoldingExactlyWhen` | src/governor.cpp:491-514 | Hysteresis holds a live intervention if and only if it is running, the last window was an incident, and this one shows less and not for long enough; a record awaiting revalidation is never held |
| `Windows.RevalidationIsFlagged` | src/governor.cpp:680-686 | After a recorded window the state asks for revalidation if and only if the live record does |
| `Windows.RecordedHistoryIs` | src/governor.cpp:659-671 | The history after a recorded window ends with its kind, severity, demand ratio, fullest queue and active senders, cut to the newest windows |
| `Windows.OutcomeExactlyWhen` | src/governor.cpp:491-655 | A recorded window issues an intervention if and only if none is live and an incident gets an intent, and continues the live one if and only if hysteresis holds it or an incident gets one |
| `Windows.EndedExactlyWhen` | src/governor.cpp:609-655 | A live intervention that is neither continued nor held is relaxed or ended if and only if a recovery is authorized, also ended when it awaits revalidation in a calm window that is no recovery, and left alone otherwise |
| `Windows.CollapseIsAnswered` | src/governor.cpp:532-586 | An accepted window of synchronized senders at a collapsing destination is an active incast and issues an intervention when none is live, unless the policy refuses to go below what is to be kept; with nothing to remove it is always a headroom adjustment |
| `Windows.IssuedIsOnRecord` | src/governor.cpp:555-586 | An issued intervention is the live record afterwards, under the next identity, active, with the decided intent, the bundle's origin and authority, from now for its duration |
| `Windows.DecisionIsOnRecord` | src/governor.cpp:589-655 | With an intervention live the decision is about that intervention, says exactly what has become of its record, and no other record changes |
| `Windows.IdleWindow` | src/governor.cpp:532-554 | A recorded window that finds nothing live and issues nothing leaves the table alone |
| `Windows.TrimKeepsTheNewest` | src/governor.cpp:47-61 | A table over its bound becomes the live records in their order and the newest of the others, newest first, until it is full |
| `GovernorProcess.UnfencedHasNotExpired` | src/governor.cpp:482-488 | A record that is not fenced has not expired, so the expiry boundary behind the fence is never reached |
| `Safety.TrimKeeps` | src/governor.cpp:47-61 | Trimming keeps every live record, adds none, and brings the table within its bound |
| `Safety.EvaluateIsSound` | src/governor.cpp:284-699 | An evaluation keeps one live record, distinct bounded identities, and records that are live or over |
| `Safety.RestoreIsSound` | src/governor.cpp:184-216 | Restoring any sane state gives a sane governor |
| `Safety.RecoveredIsSane` | src/durable.cpp:404-423 | What the durable store returns for a sane state is sane and passes the validation on restore |
| `Runs.ReachableTablesAreSane` | src/governor.cpp:532-586 | In every reachable state, restored ones included: at most one live intervention, identities nonzero, pairwise distinct and below the next one, every record live or over |
| `Runs.ReachableStatesRoundTrip` | src/state.cpp:388-629 | Every reachable state whose identities, times and counters fit their fields is stored and read back exactly; streaks, populations, ratios, rates, slots, codes and flags always fit |
| `Authorities.GateOpensExactlyWhen` | src/governor.cpp:317-353 | A bundle passes the governor's own checks if and only if the governor is accepting and bound and the bundle is well formed, in time, and carries the bound authority |
| `Authorities.AcceptedBundlesAreTimely` | src/detect.cpp:322-359 | Every required class of an accepted bundle was observed by now within the horizon, is of its window, and repeats no accepted sequence of its boot |
| `Authorities.LiveCarryTheBoundAuthority` | src/governor.cpp:449-489 | After every evaluation not refused, each live intervention carries the bound epoch, boot and lease and has not expired at the evaluation instant |
| `Authorities.ForeignRecordsAreFenced` | src/lifecycle.cpp:71-108 | A live record of another epoch, boot or lease is fenced by the first window not refused, never resumed |
| `Authorities.RestoredRunsAreRefused` | src/governor.cpp:184-216 | From a restore until complete authority is bound again every evaluation is refused, whatever else is called, failing bind calls included |
| `Authorities.ShutdownEndsEverything` | src/governor.cpp:252-272 | After a shutdown every record is terminal, the count is the number of live ones, and every bundle is refused |
| `Dwell.StreaksAreEarned` | src/governor.cpp:429-447 | The clean streak never claims more clean windows than were accepted in a row since the last restore, reset or shutdown |
| `Dwell.StreakOfWindow` | src/governor.cpp:429-447 | A refused window leaves the streak, an incident clears it, a clean one adds one up to the policy's cap |
| `Dwell.HoldsExactlyUntilDwell` | src/detect.cpp:563-582 | In a clean window after a recorded incident the classification stays an incident if and only if the streak is still shorter than the dwell |
| `Dwell.IncidentsDwell` | src/governor.cpp:403-447 | A recorded non-incident follows a recorded incident only at the end of the minimum dwell of consecutive accepted clean windows since the last restore, fenced ones counted, and an active incast is never followed directly by ordinary traffic |
| `Dwell.ReachableHistoriesStepDown` | src/governor.cpp:659-671 | In every reachable history an active incast is followed by incident or recovery windows only |
| `Replay.AcceptedEvidenceIsNotReplayed` | src/governor.cpp:355-399 | After a bundle is accepted, one of the same boot repeating a nonzero sequence of a required class is refused at every later point, until a reset, a restore, or an accepted bundle of another boot |
| `Transitions.OpEvolves` | src/governor.cpp:113-126 | One call other than reset or restore moves every record along the legal transitions, changes none that is over, and adds only a new active one under an unused identity |
| `Transitions.TerminalForever` | src/governor.cpp:590-655 | A record that is terminal at some point of a run is, wherever it still appears later, exactly the same record |
| `Limits.WindowIsTame` | src/governor.cpp:494-514 | With running records within the bounds, a window leaves them so, and any decision it authorizes, held ones included, is within them |
| `Limits.ConfiguringIsTameExactlyWhen` | src/governor.cpp:107-128 | Configuring a policy keeps running records within the bounds in force if and only if the policy is invalid, its id or generation differs from the one in the state, or they are within the new bounds already |
| `Limits.HeldWindowsRepeatTheIntent` | src/governor.cpp:494-514 | A window held by hysteresis authorizes the intent of its record, inside the bounds or not |
| `Scenarios.HeldDecisionsMayExceedTheBounds` | src/governor.cpp:494-514 | A concrete run: an overload answered, a policy of the same id and generation with lower bounds, and a held window that authorizes an intent outside the bounds in force |
| `Limits.AuthorizedDecisionsAreWithin` | src/mitigate.cpp:440 | When every policy configured over the id and generation in the state is the policy in force, each authorized decision of the run is within the bounds in force |
| `Fairness.DecisionsForgetOrder` | src/governor.cpp:284-699 | With distinct keys, neither the decision nor the state it leaves depends on the order of the sender rows |
| `Fairness.DecisionsProtect` | src/governor.cpp:536-553 | A decision synthesized from a risk or active window penalizes each identity once, and none whose sender has a usable row with an honoured obligation, of a class too strong to mitigate, or of another incarnation |
| `Relaxation.RelaxesExactlyWhen` | src/governor.cpp:609-640 | In a recorded window a live intervention is relaxed if and only if the window classifies as recovery and the policy enables recovery |
| `Relaxation.CriteriaAreRespectedExactlyWhen` | src/lifecycle.cpp:121-162 | A recorded window relaxes only when the recovery criteria let it if and only if it is no recovery window, or recovery is disabled, or its pressure, drops, capacity evidence and the clean streak behind it meet the criteria by themselves |
| `Scenarios.OneCleanWindowRelaxes` | src/governor.cpp:516-640 | A concrete run: under a policy that requires five clean windows the first one relaxes or ends the intervention although the criteria hold it back |
| `Journal.RecordRoundTrip` | src/durable.cpp:122-180 | An encoded record is read back exactly with its length, whatever follows it |
| `Journal.DecodesExactlyRecords` | src/durable.cpp:149-180 | Bytes decode to a record if and only if they begin with the encoding of that record |
| `Journal.RefusedRecords` | src/durable.cpp:149-180 | A record is refused for the first field of its header that is wrong, and only then for what follows it |
| `Journal.TornRecordIsTruncated` | src/durable.cpp:149-172 | A record cut anywhere is recognised as truncated |
| `Journal.DamagedRecordIsRefused` | src/durable.cpp:173-176 | A payload altered only within four consecutive bytes is always refused |
| `Journal.ScanBytes` | src/durable.cpp:366-402 | The loop over the offset reports what the recursive scan of the records reports |
| `Journal.ScanFindsLastCommit` | src/durable.cpp:366-402 | A scan arrives at the last state committed by the records it reaches |
| `Journal.ScanReports` | src/durable.cpp:366-402 | A scan counts every record it reads, rejects commits that hold no state and a tail that is no record, and discards a short or damaged tail byte by byte, ambiguous unless too short for a header |
| `Journal.TornTailIsReported` | src/durable.cpp:371-388 | A crash inside an append is reported as so many bytes discarded, ambiguous once the header is complete |
| `Journal.WholeThenMore` | src/durable.cpp:366-402 | Behind a journal every byte of which decodes, the scan goes on into whatever is appended |
| `Journal.AnnouncedDecides` | src/durable.cpp:149-180 | Behind twelve bytes of a record's header, decoding depends only on whether enough bytes follow and whether their checksum is the word in front of them |
| `Journal.TornRecordDecodesExactlyWhen` | src/durable.cpp:242-249 | A record torn anywhere with another appended behind it decodes if and only if it is torn behind its length field, enough bytes follow, and the checksum word is the checksum of the payload they complete |
| `Journal.ShortTailsAreTruncated` | src/durable.cpp:171-172 | Torn behind its header with too few bytes behind it, it stays truncated |
| `Journal.LastBytesDecide` | src/durable.cpp:173-176 | Torn within its last four bytes it decodes if and only if the bytes that follow are the missing ones, and is refused for its checksum otherwise |
| `Durable.CommitIsAtomic` | src/durable.cpp:272-284 | A commit to a clean store is refused without effect or leaves a clean store holding the state, and every disk a crash may leave on the way recovers the state before or the one in flight |
| `Durable.CheckpointIsAtomic` | src/durable.cpp:286-300 | The same for a checkpoint, with crashes between snapshot, rotation and removal |
| `Durable.RunsHold` | src/durable.cpp:232-300 | Through any commits and checkpoints a clean store stays clean and holds the last acknowledged state |
| `Durable.CrashSafety` | src/durable.cpp:232-425 | A crash at any point of any run from a clean store leaves a disk from which recovery revives the last acknowledged state or the one in flight, field by field: same history, sequences, numbering and counters, every record as it was but a live one awaiting revalidation, and no authority, streaks or recovery |
| `Durable.AcknowledgedIsRevived` | src/durable.cpp:304-425 | Without a crash recovery revives the last acknowledged state in the same sense |
| `Durable.RecoveryRevives` | src/durable.cpp:404-423 | Whatever is on disk, recovery returns the state it read in the same sense and changes nothing else of the report |
| `Durable.RecoveryReports` | src/durable.cpp:304-402 | The report says whether the snapshot is there and usable, whether anything was ever committed, and whether some journal ends in what may have been a commit |
| `Durable.CrashesMayRepeat` | src/durable.cpp:350-357 | After a crash that leaves a clean directory the recovered store of the next process is clean again and holds the state before or the one in flight, so crash safety starts over |
| `Durable.TornExactly` | src/durable.cpp:242-249 | A crash inside an append leaves a clean directory if and only if it hit its very start or end |
| `Durable.CheckpointCrashes` | src/durable.cpp:286-300 | A crash inside a checkpoint leaves a directory that is not clean if and only if it fell between rotation and removal with a previous journal |
| `Durable.CheckpointIsRecoveredExactlyWhen` | src/durable.cpp:292-297 | An acknowledged checkpoint is recovered if and only if no other journal holds a commit of a different state |
| `Durable.LeftoverJournalsWin` | src/durable.cpp:286-300 | After a crash between the rotation and the removal of a checkpoint, whatever the next process commits and checkpoints, recovery goes back to the last commit of the journal left over |
| `Durable.SplicesDecodeExactlyWhen` | src/durable.cpp:242-249 | A commit torn anywhere and the next one behind it decode if and only if the bytes of the next one complete the torn one; otherwise nothing there counts as a commit |
| `Durable.CommitsBehindTornTails` | src/durable.cpp:385-399 | A commit acknowledged behind a tail torn anywhere is recovered for certain only when every commit is a checkpoint; otherwise recovery finds the state before the crash unless the appended bytes complete the torn record, or the snapshot when the journal has become too long |
| `Durable.UnrecoveredCommitsAreLost` | src/durable.cpp:196-203 | A process that opens the store without recovering loses its first commit to any later journal that holds one |
| `Durable.CommitIsRecoveredExactlyWhen` | src/durable.cpp:48-300 | A commit over a directory with any other journals is acknowledged, and recovered if and only if, when it ends in a checkpoint, no other journal holds a different commit, and otherwise the journal stays within the size recovery reads or the rest of the directory holds the same state |
| `Losses.CheckpointsAreLost` | src/durable.cpp:286-300 | A concrete run: commit, a checkpoint cut short between rotation and removal, restart, commit, checkpoint; recovery finds the first commit |
| `Losses.CommitsAreHidden` | src/durable.cpp:385-399 | A concrete run: commit, one torn behind its first byte, restart, commit; recovery finds the first commit |
| `Losses.UnrecoveredCommitIsLost` | src/durable.cpp:196-203 | A concrete run in which a process opens the store without recovering and its acknowledged commit is lost to a later journal |
| `Losses.LongJournalsAreLost` | src/durable.cpp:48-50 | Commits below the limit on records that outgrow what recovery reads are all acknowledged, and recovery finds an empty state |
| `Losses.DefaultStoresLose` | include/incast/durable.hpp:73-75 | A concrete run under the default settings: 4095 acknowledged commits of a state that names 1024 senders, and recovery finds an empty state |
| `DurableProcess.Directory.AppendJournal` | src/durable.cpp:242-249 | An append passes through every prefix of the record |
| `DurableProcess.DurableStore.Commit` | src/durable.cpp:272-284 | The commit in place is the commit on values, and its files pass through exactly the listed contents |
| `DurableProcess.DurableStore.Checkpoint` | src/durable.cpp:286-300 | The checkpoint in place is the checkpoint on values, and its files pass through exactly the listed contents |
| `DurableProcess.DurableStore.Recover` | src/durable.cpp:304-425 | Recovery reports snapshot and journals in the order of their numbers, whatever order the directory lists them in, and continues with the highest journal |
| `Continuity.CommittedRunsAreRestored` | src/durable.cpp:232-425 | Committing a reachable governor's snapshot and crashing at any point leaves a disk from which a new governor goes on from the committed state, field by field and without authority, as the exact successor of the run, or revives the state held before; after an acknowledged commit it is the former |

## Left out

- Sockets, threads, mutexes, the accept loop and shutdown of connections: each locked section is one atomic step, and a
  request with its reply is one call.
- Real file-system calls: flushing, temporary files, and write failures that leave the process running; a ledger write
  that fails is modelled.
- Calls on a store or ledger that is not open, and opening one twice.
- Journal files whose names are not a decimal rotation number, and unreadable files other than oversized ones.
- Notes, details, headlines, explanations and JSON; the digest and the text form of policies; error texts and the error
  codes of policy validation.
- The parts of a decision and of the authority vector that copy the bundle, the configuration or the metrics;
  `protected_floor_preserved` and `bounds_respected`, which are never false.
- Statistics and counters that no branch reads, and the `expired` mark of a lease, which is never set.
- The coordinator's message codecs, control tokens, the minting of ids and boots, and the session handshake beyond the
  epoch it hands over.
- The `clamped_` mark of a basis-point value, which no decision reads.
- The decision observer, which runs after the lock is released.
- The derived flags of a recovery report (unfinished attempts, ambiguous outcomes, dropped liveness counts).
- Ranking.MitigableIsSafe: speaks of usable rows only, because rows without an incarnation are skipped by the program;
  `Ranking.MitigableIsUnshieldedExactlyWhen` says exactly when that makes a difference.
- The wrap-around of counters: identities, times and the counters of evaluations, steps and restores are unbounded, so
  statements about stored states and epochs say where they must fit their fields.
