# A model of UFlow's evidence, copy and measurement core

UFlow moves objects between host memory, device memory and storage, and keeps
evidence of what it did. This project models the parts of the repository where a
mistake would be hard to see, and proves what they promise.

| files | what they model |
|---|---|
| `Journal`, `EvidenceLog` | the hash-chained journal with its separately synced head: the reader, the single writer, every point at which the writer can stop |
| `Roster` | the verifier of a sealed roster of births, waits and resource observations |
| `Events`, `ChildTable`, `SupervisorHistory`, `Supervisor` | the supervisor witness, and why its sealed runs pass the roster verifier |
| `DeploymentHistory`, `Deployment` | the deployment witness with gated children and a broker |
| `TrustSlot`, `Bootstrap` | the trust slot that anchors a sealed head, and the bootstrap manifest |
| `ChunkPipeline` | chunked copies through a ring of pinned slots, with the device moving bytes in any order |
| `PayloadScan` | the streaming search for payloads |
| `Admission` | the copy of one requester: plan, submit, wait, bounded replanning |
| `CostModel`, `Percentile`, `Reals` | the least-squares fit and the two percentiles, over the reals |
| `TraceValues`, `TraceCheck`, `TraceCsv`, `TraceReport`, `TraceMeaning`, `TraceExample` | the checker of a trace artifact, what a clean report means for its texts, numbers and stages, and an artifact it reports clean |
| `KvCodec` | the `key=value;...` line protocol, in Rust and in Python |
| `Values`, `Text` | bytes, JSON values, decimal text |

## How the outside world appears

- The operating system is an adversary. Each call that reaches it takes a value
  that says what happened: how many bytes each write took, whether a sync raised,
  what /proc reported, which status was reaped. The theorems hold for all of them.
- `Values.Codec` bundles canonical JSON printing, JSON parsing and SHA-256.
  `Codec.Valid` says that parsing undoes printing, that a printed document has no
  line break and that a digest has at least 64 characters. `Journal.ShortHeads` says
  that it has exactly 64 and that a printed head is short; it is assumed only where no
  collision-free digest is. `Codec.CollisionFree` says that the digest is injective; the
  results that need it either assume it or name the collision (`Clash`) that would
  be the only alternative.
- JSON objects are classified by their set of member names, one constructor for
  each set the evidence formats use. `Obj` stands for all other objects.
- Raised exceptions are results: `None`, `false` or a poisoned log.
- `Tamper` lets any other process rewrite the evidence files between two calls.
- The device in `ChunkPipeline` may move any byte of any copy in flight whenever
  the host does something, and must have moved all of them when a synchronize
  returns. Refilling a slot whose copy is still in flight is excluded by the
  preconditions of `Channel.Load` and `Channel.Submit`, which the pipelines are
  shown to meet.

## Findings

- `verify_fixture_structure` compares sequence numbers with Python's `!=`, so a
  frame numbered `true` or `1.0` passes as number 1. `LooseTagAccepted` gives the
  log. The counts in the head file are compared in the same way. `AcceptedIsWritten`
  says exactly which accepted files a writer can have left: those with integer tags and
  an integer offset and count in the head.
- Both witnesses key their children by pid. If the kernel reuses a pid, the entry of
  an earlier child is overwritten: the seal then counts fewer children than were born
  (`CountReplay` says exactly when), the sealed supervisor run is rejected by the
  roster verifier (`SealedRunAccepted`), and the deployment witness can seal although
  a child failed (`ReusedPidHidesFailure`). `SealMeans` gives the exact conditions at
  the overwriting launch: every recorded exit was zero if and only if no launch found a
  failed child under its pid, and every birth has its own wait if and only if none found
  a child not yet reaped. Launch identities of the deployment witness are unique if and
  only if every launch that is followed by another found its pid unused
  (`LaunchesUniqueIff`).
- A raw status of 128 counts as a normal zero exit beside 0 (`NormalStatuses`).
- A seal of the trust slot whose first write makes no progress leaves the slot empty,
  indistinguishable from one that was never bound; one that stops later leaves it torn.
  `InterruptedSealUnbinds` decides this from the writes alone, and
  `InterruptedSealRebinds` shows that the slot can then be bound to another run.
- `copy_attempts` skips the terminal wait of an admitted event exactly when the record
  callback raises while the failed wait or the failed cancel is being recorded.
- The bootstrap parser accepts a text value that ends in a carriage return, because
  `splitlines` takes a carriage return and a line feed as one break. The text still is
  the canonical printing of its fields.
- A trace report can pass with a negative count of dropped events, provided the trace
  is declared incomplete (`CleanNeedNotBeComplete`).
- The trace checker never looks at a summary row that a later row of the same id
  shadows (`ShadowedRowUnseen`).
- A value that ends in white space is lost in the line protocol when it is encoded
  last, and Python's reader also trims the first key (`RoundTrip` gives the exact
  condition).

## Model

| member | source | states |
|---|---|---|
| Journal.SplitAppend | examples/ddr_v0/t3_supervisor_wip.py:375 | splitting bytes that end in a line feed, followed by one more line without breaks, yields the earlier lines and that line |
| Journal.SplitLossless | examples/ddr_v0/t3_supervisor_wip.py:375 | the split lines, joined, are the bytes again, for any bytes |
| Journal.VerifyChain | examples/ddr_v0/t3_supervisor_wip.py:373-387 | the loop over frames returns the events and the last checksum exactly when every line reads as a frame of the chain |
| Journal.VerifyStructure | examples/ddr_v0/t3_supervisor_wip.py:361-390 | returns the event list exactly when head and journal verify, and an error otherwise |
| Journal.ReadFrameExact | examples/ddr_v0/t3_supervisor_wip.py:375-386 | a line is accepted as an entry if and only if it is byte for byte the canonical frame of that entry, fits the frame limit and its tag equals the position |
| Journal.ReadLinesExact | examples/ddr_v0/t3_supervisor_wip.py:373-387 | the chain of lines is accepted if and only if the lines are the frames of the entries in order |
| Journal.VerifiedExact | examples/ddr_v0/t3_supervisor_wip.py:361-390 | files are accepted with given entries if and only if the journal is their byte log within the limits and the head states its length, count and last checksum |
| Journal.TipAnchors | examples/ddr_v0/t3_supervisor_wip.py:163-166 | equally long chains with the same last checksum are equal, or contain two different frames with one digest |
| Journal.HeadAnchorsHistory | examples/ddr_v0/t3_supervisor_wip.py:361-390 | two journals accepted under one head are identical with identical entries, or the digest collides |
| Journal.WriterAccepted | examples/ddr_v0/t3_supervisor_wip.py:144-179 | every log within the limits is accepted with its own head and gives back exactly its events |
| Journal.HeadFits | examples/ddr_v0/t3_supervisor_wip.py:363 | the printed head of every log within the limits is within the size limit of the reader |
| Journal.LooseTagAccepted | examples/ddr_v0/t3_supervisor_wip.py:382-383 | a log whose only frame is numbered `true` is accepted, although no writer produces it; `AcceptedIsWritten` gives the exact condition |
| Journal.AcceptedIsWritten | examples/ddr_v0/t3_supervisor_wip.py:361-390 | accepted files carry the tags a writer stamps if and only if all tags are integers, and are exactly what a writer leaves if and only if, besides, the offset and the count in the head are integers |
| Journal.CrashConsistent | examples/ddr_v0/t3_supervisor_wip.py:137-179 | stopping an append at any byte of the journal write, the head truncation or the head write leaves files that are rejected or read as exactly the old or exactly the new events |
| Journal.StaleHead | examples/ddr_v0/t3_supervisor_wip.py:370-372 | a head is rejected with any journal of another length |
| Journal.TornHead | examples/ddr_v0/t3_supervisor_wip.py:367-369 | a proper prefix of a head is rejected with any journal |
| Journal.SameLog | examples/ddr_v0/t3_supervisor_wip.py:373-387 | entries read from the bytes of a written log are its events |
| EvidenceLogs.IntactMeansUntouched | examples/ddr_v0/t3_deployment_witness.py:178-201 | files that pass the checks before an append are the files the writer left, or the digest collides |
| EvidenceLogs.DurableIsIntact | examples/ddr_v0/t3_deployment_witness.py:178-201 | the files the writer left always pass those checks |
| EvidenceLogs.IntactIsVerified | examples/ddr_v0/t3_supervisor_wip.py:154-159 | files within the limits pass the checks before an append if and only if the head is the one the writer keeps and the pair verifies |
| EvidenceLogs.WrittenIsProgress | examples/ddr_v0/t3_deployment_witness.py:76-82 | the bytes out are the sum of the writes up to the first that makes no progress, or all of them if that is fewer |
| EvidenceLogs.EvidenceLog.constructor | examples/ddr_v0/t3_supervisor_wip.py:104-124 | a new log is empty and on disk unless writing the first head failed |
| EvidenceLogs.EvidenceLog.WriteOut | examples/ddr_v0/t3_deployment_witness.py:76-82 | the number of bytes out, for every sequence of short, failing or missing writes |
| EvidenceLogs.EvidenceLog.Record | examples/ddr_v0/t3_supervisor_wip.py:144-179 | exact success condition; success extends the recorded events by one and leaves them on disk, also after tampering if the digest is collision free; any failure poisons; a poisoned or sealed log is never written; a failed append leaves one of the crash states |
| EvidenceLogs.EvidenceLog.Step | examples/ddr_v0/t3_deployment_witness.py:162-217 | the same append in terms of the head in memory: which bytes may have been written, and when the head advances |
| EvidenceLogs.EvidenceLog.Commit | examples/ddr_v0/t3_deployment_witness.py:166-213 | the files only move forward: part of the frame under the old head, or the whole frame with part of the new head |
| EvidenceLogs.EvidenceLog.AppendFrame | examples/ddr_v0/t3_supervisor_wip.py:172-174 | the journal grows by exactly the bytes that were written |
| EvidenceLogs.EvidenceLog.WriteHead | examples/ddr_v0/t3_supervisor_wip.py:137-142 | the head file is untouched, or a prefix of the new head as long as what was written |
| Roster.NormalStatuses | examples/ddr_v0/t3_supervisor_wip.py:78-79 | among the 16-bit wait statuses exactly 0 and 128 are normal zero exits |
| Roster.ScanExact | examples/ddr_v0/t3_supervisor_wip.py:411-476 | the table-driven scan accepts the items if and only if each is well shaped and, read without tables, births are unique, mentions are of born and not yet waited children, and no pid has two live births |
| Roster.RosterExact | examples/ddr_v0/t3_supervisor_wip.py:393-485 | start check, scan and seal check together mean a good roster |
| Roster.ShortTokenExact | examples/ddr_v0/t3_witness_pin_wip.py:133-134 | a token has 1 to 96 characters, each of them ASCII and either alphanumeric, a dot, an underscore or a hyphen |
| Roster.GenuineExact | examples/ddr_v0/t3_supervisor_wip.py:415-476 | a record has the shape the scan demands and exits well if and only if its fields, written out kind by kind, are those of this run and boot |
| Roster.VerifyRoster | examples/ddr_v0/t3_supervisor_wip.py:393-485 | the loop over events accepts if and only if the roster is good: well formed, orderly, everybody waited for normally, the seal count equal to the births, every required birth covered; `AcceptedFields` and `ReplacedRecord` spell out well formed field by field |
| Roster.AcceptedFields | examples/ddr_v0/t3_supervisor_wip.py:393-485 | every record of an accepted roster is genuine field by field, the start names run, boot, code and parent, and the seal names the run, a clean end and exactly as many children as there are birth records |
| Roster.ReplacedRecord | examples/ddr_v0/t3_supervisor_wip.py:411-485 | exchanging a record of an accepted roster for one with the same links leaves it accepted if and only if the new record is genuine; hence any wrong kind, run, boot, token, status or identity is rejected |
| Roster.BirthsAndWaitsPairOff | examples/ddr_v0/t3_supervisor_wip.py:411-485 | in a good roster every birth has exactly one wait, later and of the same role and launch, and every wait exactly one earlier birth |
| Roster.ObservedWhileAlive | examples/ddr_v0/t3_supervisor_wip.py:424-435 | every resource observation stands strictly between the birth and the wait of its child |
| Roster.OneLiveChildPerPid | examples/ddr_v0/t3_supervisor_wip.py:448-476 | at every prefix two live births of one pid are the same birth |
| Events.PrintedInjective | examples/ddr_v0/t3_supervisor_wip.py:128-131 | the printed journal determines the history of events |
| Events.EventReadsBack | examples/ddr_v0/t3_supervisor_wip.py:128-338 | every event is recovered from its record by looking up the members by name: nothing is swapped or dropped |
| Events.HistoryReadsBack | examples/ddr_v0/t3_supervisor_wip.py:128-338 | so is the whole history from the printed journal |
| ChildTable.ReplayGrounded | examples/ddr_v0/t3_deployment_witness.py:254-256 | every entry of the replayed table comes from a recorded birth under its own pid, and has a status only if that wait was recorded |
| ChildTable.FileReplays | examples/ddr_v0/t3_supervisor_wip.py:227 | the table replayed from the JSON events of a journal is the table replayed from the recorded history |
| ChildTable.ReplayKeeps | examples/ddr_v0/t3_deployment_witness.py:254-256 | without pid reuse the entry of a child is its own birth |
| ChildTable.EndedStays | examples/ddr_v0/t3_deployment_witness.py:294-319 | without pid reuse a waited child keeps its status to the end |
| ChildTable.CountReplay | examples/ddr_v0/t3_supervisor_wip.py:335-336 | the table is never larger than the number of births, and as large exactly when no pid was reused |
| ChildTable.Occupant | examples/ddr_v0/t3_deployment_witness.py:254-256 | the entry of a pid is that of its last birth, and its status is that of this birth's own wait, if there is one |
| ChildTable.FailuresLost | examples/ddr_v0/t3_deployment_witness.py:254-256 | with only zero statuses left in the table, every recorded exit was zero if and only if no birth overwrote a failed child |
| ChildTable.WaitsLost | examples/ddr_v0/t3_deployment_witness.py:254-256 | with everybody left in the table reaped, every birth has its own wait if and only if no birth overwrote a child not yet reaped |
| SupervisorHistory.SealedRunAccepted | examples/ddr_v0/t3_supervisor_wip.py:181-347 | every sealed run passes the roster verifier, for any required births from its roster, if and only if no pid was reused, every exit was normal and every backing identity is valid |
| SupervisorHistory.RunSeal | examples/ddr_v0/t3_supervisor_wip.py:332-338 | with normal exits the seal agrees with the roster if and only if no pid was reused |
| SupervisorHistory.AllZeroMeans | examples/ddr_v0/t3_supervisor_wip.py:332-338 | for 16-bit statuses the flag is true if and only if every status in the table is 0 or 128 |
| SupervisorHistory.SealFlag | examples/ddr_v0/t3_supervisor_wip.py:332-338 | a sealed run ends in a seal whose count is the size of the replayed table and whose flag is true if and only if every status in it is 0 or 128; without pid reuse, if and only if every recorded exit is |
| SupervisorHistory.RunFounded | examples/ddr_v0/t3_supervisor_wip.py:255-330 | every recorded wait and observation names a child born earlier in the run |
| SupervisorHistory.RunAllWaited | examples/ddr_v0/t3_supervisor_wip.py:332-334 | in a sealed run without pid reuse every birth has its wait |
| Supervisor.NextLaunchUnused | examples/ddr_v0/t3_supervisor_wip.py:201-202 | the next launch identity differs from all earlier ones |
| Supervisor.Witness.constructor | examples/ddr_v0/t3_supervisor_wip.py:91-135 | a new witness has recorded its start, with an empty table, unless it is poisoned |
| Supervisor.Witness.Note | examples/ddr_v0/t3_supervisor_wip.py:144-179 | an event is added to the history exactly when its append succeeds; otherwise the witness is poisoned; the table is not touched |
| Supervisor.Witness.Spawn | examples/ddr_v0/t3_supervisor_wip.py:181-253 | exactly when the birth is recorded, exactly when the call returns and exactly when it poisons; a gate is opened only after its birth was recorded; the launch counter moves exactly when the launch was admitted; nothing happens once poisoned or sealed |
| Supervisor.Witness.Enrol | examples/ddr_v0/t3_supervisor_wip.py:206-253 | the part of a launch in which a process exists: exactly when the birth is recorded and entered, exactly when the gate is opened, and that any failure poisons |
| Supervisor.Witness.Wait | examples/ddr_v0/t3_supervisor_wip.py:255-282 | exact success condition and exactly when it poisons; the wait is recorded once, for the reaped pid with its status; a timeout, a missing child, a foreign pid or a failed append poisons |
| Supervisor.Witness.RecordNoBacking | examples/ddr_v0/t3_supervisor_wip.py:284-304 | exact success condition; a witness that holds the backing records nothing and is not poisoned |
| Supervisor.Witness.RecordChildBacking | examples/ddr_v0/t3_supervisor_wip.py:306-330 | exact success condition; the observation names the child as it was born |
| Supervisor.Witness.Seal | examples/ddr_v0/t3_supervisor_wip.py:332-347 | sealed exactly when every child was waited for and the seal is on disk, and exactly when it poisons; the appended seal counts the table and its flag says, status by status, whether all are 0 or 128; the call succeeds only if the deployment's own seal did |
| Supervisor.TableIsReplayOfJournal | examples/ddr_v0/t3_supervisor_wip.py:144-347 | between any two calls of an unpoisoned, untampered witness the files verify, give back the recorded events, each read by member name, and the child table equals the replay of the events read from the files |
| Supervisor.SealedFilesAccepted | examples/ddr_v0/t3_supervisor_wip.py:332-485 | the bytes a sealed witness left pass the structure check, and their events pass the roster check exactly when no pid was reused, exits were normal and backings valid |
| DeploymentHistory.OneBrokerFirst | examples/ddr_v0/t3_deployment_witness.py:230-231 | in every recorded run the first child, and only it, is the broker |
| DeploymentHistory.SealMeans | examples/ddr_v0/t3_deployment_witness.py:388-395 | a seal means at least one child; its count is the number of births exactly when no pid was reused; every recorded exit was zero exactly when no birth overwrote a failure, and every birth has its own wait exactly when none overwrote a child not yet reaped; without pid reuse both hold |
| DeploymentHistory.ReusedPidHidesFailure | examples/ddr_v0/t3_deployment_witness.py:254-256 | a run with a reused pid in which a failed child is followed by a clean seal |
| DeploymentHistory.LaunchesUniqueIff | examples/ddr_v0/t3_deployment_witness.py:232 | launch identities are unique if and only if every birth that is followed by another found its pid unused |
| DeploymentHistory.NoChildrenNoBirths | examples/ddr_v0/t3_deployment_witness.py:230-231 | the table is empty exactly before the first birth |
| DeploymentHistory.FileHoldings | examples/ddr_v0/t3_deployment_witness.py:344-386 | the resources and absent backings replayed from the JSON events of a journal are those replayed from the recorded history |
| Deployment.Witness.constructor | examples/ddr_v0/t3_deployment_witness.py:108-149 | a new witness has recorded its start and the broker identity, unless it is poisoned |
| Deployment.Witness.Note | examples/ddr_v0/t3_deployment_witness.py:162-217 | trace and history grow by the event exactly when the append succeeds; otherwise the witness is poisoned; table, holdings and gates are not touched |
| Deployment.Witness.SpawnGated | examples/ddr_v0/t3_deployment_witness.py:219-277 | exact success condition, exactly when it poisons, and the one birth it adds to journal, table, gates and resources; the gate stays shut |
| Deployment.Witness.ReleaseGate | examples/ddr_v0/t3_deployment_witness.py:279-292 | exact success condition, exactly when the gate is closed and exactly when it poisons; the release byte follows the recorded birth of the same child, and nothing is appended |
| Deployment.Witness.Wait | examples/ddr_v0/t3_deployment_witness.py:294-319 | exact success condition and exactly when it poisons; only a released child is waited for |
| Deployment.Witness.RecordChildBacking | examples/ddr_v0/t3_deployment_witness.py:344-371 | when the observation is recorded, and that it counts as a holding only if the child is unchanged afterwards |
| Deployment.Witness.RecordNoBacking | examples/ddr_v0/t3_deployment_witness.py:373-386 | exact success condition; each absent backing is recorded once |
| Deployment.Witness.Seal | examples/ddr_v0/t3_deployment_witness.py:388-395 | exact success condition and exactly when it poisons; every child of the table was released before the seal |
| Deployment.SealedRunIsSafe | examples/ddr_v0/t3_deployment_witness.py:219-395 | in a sealed witness that overwrote neither a failure nor a child not yet reaped, every born child was released after its birth was durable and then waited for with status zero, in this order |
| Deployment.FreshPidsLoseNothing | examples/ddr_v0/t3_deployment_witness.py:254-256 | a sealed witness that never reused a pid overwrote nothing |
| Deployment.StateIsReplayOfJournal | examples/ddr_v0/t3_deployment_witness.py:162-395 | between any two calls of an unpoisoned, untampered witness the files verify, give back the recorded events, each read by member name, and table, resources and absent backings equal the replay of the events read from the files |
| TrustSlots.ReadSlot | examples/ddr_v0/t3_witness_pin_wip.py:252-260 | whatever is read is a binding whose canonical line is the slot itself |
| TrustSlots.PlanPin | examples/ddr_v0/t3_witness_pin_wip.py:137-207 | a binding is planned exactly when the slot is empty, the authority is at genesis and the only event is the start of the live, pinned witness |
| TrustSlots.PinSays | examples/ddr_v0/t3_witness_pin_wip.py:187-204 | a planned binding names, member by member, the host, boot, inodes, files, run, broker and epoch of the request and the site, and the journal holds one event, the start of that run and boot |
| TrustSlots.PinReadsBack | examples/ddr_v0/t3_witness_pin_wip.py:187-306 | a pinned binding is read back with the evidence under the same surroundings |
| TrustSlots.ReadingSays | examples/ddr_v0/t3_witness_pin_wip.py:238-306 | what a successful reading has checked, member by member: schema, revision, host, domain, boot, genesis, broker, the four inodes, the four files, the start event and, once sealed, the digest of the head |
| TrustSlots.TrustSlot.Pin | examples/ddr_v0/t3_witness_pin_wip.py:137-235 | the slot is filled only if it was empty, with the written prefix of the pending binding; success means it reads back; every call is one of the attempts that `AttemptMoves` classifies |
| TrustSlots.TrustSlot.Seal | examples/ddr_v0/t3_witness_pin_wip.py:309-350 | only a pending slot that reads as the original binding over a sealed roster is rewritten, to the digest of the head; exact success condition; every call is one of the attempts that `AttemptMoves` classifies |
| TrustSlots.SealedSlotPinsEvidence | examples/ddr_v0/t3_witness_pin_wip.py:238-306 | two successful readings of one sealed slot, at any time and place, return the same journal, head and events, or the digest collides |
| TrustSlots.ReadsBackSealedEvents | examples/ddr_v0/t3_witness_pin_wip.py:309-350 | after a seal, any later reading fails or returns exactly the sealed events, or the digest collides |
| TrustSlots.TornSlotUnreadable | examples/ddr_v0/t3_witness_pin_wip.py:252-260 | a slot cut short is never readable |
| TrustSlots.AttemptMoves | examples/ddr_v0/t3_witness_pin_wip.py:137-350 | the moves an attempt can make: unbound to bound or torn, bound to torn, anchored or unbound, and none from torn or anchored |
| TrustSlots.SlotOnlyAdvances | examples/ddr_v0/t3_witness_pin_wip.py:137-350 | over every run without torn writes the slot only moves from empty to pending to sealed, and never changes within a phase |
| TrustSlots.InterruptedSealUnbinds | examples/ddr_v0/t3_witness_pin_wip.py:339-342 | from the writes alone: the slot ends unbound if and only if the first write makes no progress, torn if and only if the writes stop in the middle, anchored if and only if they complete |
| TrustSlots.InterruptedSealRebinds | examples/ddr_v0/t3_witness_pin_wip.py:337-342 | after a seal whose first write makes no progress the slot can be pinned again, to another run |
| Bootstrap.Parse | examples/ddr_v0/t3_witness_pin_wip.py:73-101 | the loop returns given fields if and only if the text is byte for byte their canonical printing, within 4096 bytes, and the fields are valid; otherwise it fails |
| Bootstrap.ManifestSays | examples/ddr_v0/t3_witness_pin_wip.py:90-100 | the fields are valid if and only if the domain is the fixture's, all from the fifth on are canonical numbers, the revision is not zero, and the directory numbers are those of the root |
| Bootstrap.ReadFieldExact | examples/ddr_v0/t3_witness_pin_wip.py:83-88 | a line yields a value if and only if it is the printed field and the value can stand in a line |
| Bootstrap.ReadIsPrinted | examples/ddr_v0/t3_witness_pin_wip.py:79-89 | an accepted text is the printing of the fields read from it |
| Bootstrap.PrintedIsRead | examples/ddr_v0/t3_witness_pin_wip.py:382 | printed fields are read back, for every list of fitting values |
| Bootstrap.AuthorityReadsBack | examples/ddr_v0/t3_witness_pin_wip.py:373-386 | the manifest of an authority parses back to the fields it printed, for all its integers and texts |
| Text.CanonicalDigits | examples/ddr_v0/t3_witness_pin_wip.py:92-95 | printing the value of a digit string gives the string back exactly when it has no leading zero |
| Text.DecimalRoundTrip | examples/ddr_v0/t3_witness_pin_wip.py:94 | every number is read back from its decimal text, which has no leading zero |
| ChunkPipeline.Channel.DeviceRuns | examples/phasee03/uflow_e03_chunk_pipeline_bench.py:267-279 | any bytes of any copies in flight may move between two host actions |
| ChunkPipeline.Channel.Submit | examples/phasee03/uflow_e03_chunk_pipeline_bench.py:277 | a slot without a copy in flight gets one, with nothing moved yet |
| ChunkPipeline.Channel.Synchronize | examples/phasee03/uflow_e03_chunk_pipeline_bench.py:269-270 | after other copies progressed arbitrarily, the copy of this slot is complete and no longer in flight |
| ChunkPipeline.Channel.Load | examples/phasee03/uflow_e03_chunk_pipeline_bench.py:274 | only a slot without a copy in flight is filled |
| ChunkPipeline.H2dFullSize | examples/phasee03/uflow_e03_chunk_pipeline_bench.py:210-225 | device memory ends as the source followed by what was there |
| ChunkPipeline.H2dChunked | examples/phasee03/uflow_e03_chunk_pipeline_bench.py:246-294 | for every object size, chunk size, slot count and device order, device memory ends exactly as after the plain copy |
| ChunkPipeline.AwaitAll | examples/phasee03/uflow_e03_chunk_pipeline_bench.py:282-287 | after the final loop nothing is in flight and the upload invariant stands |
| ChunkPipeline.D2hFullSize | examples/phasee03/uflow_e03_chunk_pipeline_bench.py:228-243 | the destination ends as the device bytes followed by what was there |
| ChunkPipeline.D2hChunked | examples/phasee03/uflow_e03_chunk_pipeline_bench.py:297-348 | for every object size, chunk size, slot count and device order, the destination ends exactly as after the plain copy, device memory is untouched, and each chunk range is drained exactly once |
| ChunkPipeline.DrainPending | examples/phasee03/uflow_e03_chunk_pipeline_bench.py:319-326 | draining a slot follows its own synchronize and moves one pending range to the destination |
| ChunkPipeline.SyncFetches | examples/phasee03/uflow_e03_chunk_pipeline_bench.py:321-325 | after its synchronize a slot holds exactly the device bytes of its range, whatever the other copies did |
| ChunkPipeline.SyncKeepsUploaded | examples/phasee03/uflow_e03_chunk_pipeline_bench.py:267-272 | the upload invariant survives every completion order |
| ChunkPipeline.ChunksPartition | examples/phasee03/uflow_e03_chunk_pipeline_bench.py:315-332 | the chunk ranges are adjacent, non-empty, within the chunk size, and cover the object |
| ChunkPipeline.PiecesCoverOnce | examples/phasee03/uflow_e03_chunk_pipeline_bench.py:315-332 | every position lies in exactly one chunk range |
| PayloadScan.Find | tools/phasec/phasec02_payload_scan.py:41 | the first match at or after the cursor, or none at all |
| PayloadScan.CountWindow | tools/phasec/phasec02_payload_scan.py:39-45 | the cursor loop counts all overlapping occurrences in a window |
| PayloadScan.OccCounts | tools/phasec/phasec02_payload_scan.py:39-45 | the recursive count is the number of positions at which the needle stands |
| PayloadScan.CountAll | tools/phasec/phasec02_payload_scan.py:37-45 | every named count grows by the occurrences of its needles in the window |
| PayloadScan.ScanFile | tools/phasec/phasec02_payload_scan.py:26-47 | fails exactly without needles; otherwise the digest of the whole file and, for each name, the sum over windows |
| PayloadScan.CarryIsTail | tools/phasec/phasec02_payload_scan.py:46 | the carried bytes are the last bytes of the file read so far |
| PayloadScan.OccLocal | tools/phasec/phasec02_payload_scan.py:37-46 | occurrences in joined text are those of the two overlapping windows less those inside the overlap |
| PayloadScan.HitsExact | tools/phasec/phasec02_payload_scan.py:26-47 | for any chunking the reported count is the true count plus the matches that lie wholly in a carried overlap |
| PayloadScan.HitsSound | tools/phasec/phasec02_payload_scan.py:26-47 | zero if and only if the needle does not occur, never below the true count, exact for the longest needle |
| PayloadScan.ReportedCount | tools/phasec/phasec02_payload_scan.py:26-47 | the same three facts for the count under each name, exact for a needle that none exceeds in length |
| Admission.CopyAttempts | examples/ddr_v0/t35_calibrate.py:77-157 | against any client: at most four plans; nothing planned or submitted after a submit returned; a failure is followed by a replan if and only if its record was written, fewer than four plans were made and its text is one of the listed rejections for its phase, written out; every failed call is recorded at once with its phase, attempt and retry flag; no early giving up; an admitted event that failed gets its terminal wait exactly unless the record callback raised first |
| Admission.ListedIsReplannable | examples/ddr_v0/t35_calibrate.py:68-74 | the failures that permit a replan are exactly those of the service that carry a listed text in the listed phase; the freshness text only while nothing is planned yet |
| Admission.LateFailures | examples/ddr_v0/t35_calibrate.py:119-151 | a failed wait or cancel is followed at once by its record, under its own phase and never as one to retry |
| Admission.Cleanup | examples/ddr_v0/t35_calibrate.py:119-152 | after a failed wait: cancel, then the terminal wait whatever the cancel said, each failure recorded, nothing planned or submitted |
| CostModel.FitExists | examples/ddr_v0/t35_cost_model.py:27-33 | the fit is defined if and only if two points differ in x |
| CostModel.LeastSquares | examples/ddr_v0/t35_cost_model.py:27-33 | slope and intercept minimise the sum of squared residuals over all real lines, and no other line does |
| CostModel.Expand | examples/ddr_v0/t35_cost_model.py:27-33 | the residuals of any line, expanded around any other line |
| CostModel.ReportedFit | examples/ddr_v0/t35_cost_model.py:34-38 | a reported fit has non-negative setup time and positive rate, and its line is the minimiser |
| CostModel.BestLineExists | examples/ddr_v0/t35_cost_model.py:27-33 | with two points that differ in x some line minimises the squared residuals |
| CostModel.ReportedWhen | examples/ddr_v0/t35_cost_model.py:34-38 | for any minimising line: it is reported, with the inverse of its slope as the rate, if and only if its slope is positive and its intercept is not negative; otherwise the result carries that intercept and slope as nonphysical |
| CostModel.ExactRecovery | examples/ddr_v0/t35_cost_model.py:27-33 | points on a line are recovered exactly |
| Percentile.SortSorts | examples/ddr_v0/t35_cost_model.py:20 | the ordered list is sorted and a permutation |
| Percentile.SortedUnique | tools/uflow_monitor_api.py:352 | a sorted permutation is unique |
| Percentile.PercentilesAgree | tools/uflow_monitor_api.py:349-359 | both percentiles are the same interpolation, for every non-empty list and fraction in [0,1]; `PercentileAtRank`, `PercentileBlends` and `EveryFraction` say which |
| Percentile.PercentileAtRank | examples/ddr_v0/t35_cost_model.py:19-24 | at fraction k/(n-1) both are exactly the k-th smallest value |
| Percentile.PercentileBlends | tools/uflow_monitor_api.py:349-359 | at fraction (k+w)/(n-1) both are the blend of the k-th and the next value with weight w |
| Percentile.EveryFraction | examples/ddr_v0/t35_cost_model.py:19-24 | every fraction in [0,1] has that form |
| Percentile.PercentileOfOne | examples/ddr_v0/t35_cost_model.py:19-24 | of a single value both are that value, at every fraction |
| Percentile.PercentileBounds | examples/ddr_v0/t35_cost_model.py:19-24 | the result lies between the least and the greatest value |
| Percentile.PercentileMonotone | examples/ddr_v0/t35_cost_model.py:19-24 | the result grows with the fraction |
| Percentile.PercentileOrderFree | examples/ddr_v0/t35_cost_model.py:19-24 | the result does not depend on the order of the values |
| TraceValues.EqualComposes | tools/phasee06/check_trace_v2.py:146-159 | two numeric comparisons in a row leave both ends missing, or both finite and within the composed tolerance |
| TraceValues.OneToleranceIsNotEnough | tools/phasee06/check_trace_v2.py:146-159 | the comparison is not transitive: two accepted steps can add up to a rejected one |
| TraceValues.NumbersEqual | tools/phasee06/check_trace_v2.py:146-156 | two numbers compare equal if and only if both are finite and differ by at most 0.01 or by at most one part in ten thousand of the right one |
| TraceValues.WholeNumbersEqual | tools/phasee06/check_trace_v2.py:146-156 | the same for whole numbers, and for their spellings, truth values and missing values |
| TraceCheck.ScanRaw | tools/phasee06/check_trace_v2.py:239-267 | raises exactly on an overflowing id, reports nothing exactly when every raw event is good, and groups the events |
| TraceCheck.GroupExact | tools/phasee06/check_trace_v2.py:265-267 | the group of an id is the raw events with that id in order, and the ids are those that occur |
| TraceCheck.RoleTable | tools/phasee06/check_trace_v2.py:162-187 | role by role, which transfers require it: the chain of path tests read as a table |
| TraceCheck.CheckContext | tools/phasee06/check_trace_v2.py:286-296 | silent exactly when every common key has one printed value over the events |
| TraceCheck.CheckSummary | tools/phasee06/check_trace_v2.py:341-351 | silent exactly when all compared fields of the summary row agree with the outcome |
| TraceCheck.CheckPoll | tools/phasee06/check_trace_v2.py:353-363 | silent exactly when the polled fields that the outcome has agree with it |
| TraceCheck.CheckEvent | tools/phasee06/check_trace_v2.py:280-363 | silent exactly when context, stages, the single outcome with its roles, the summary row and the polled row are all in order |
| TraceCsv.CheckStageCsv | tools/phasee06/check_trace_v2.py:404-419 | silent exactly when the file is rectangular under the fixed header |
| TraceCsv.ReadIds | tools/phasee06/check_trace_v2.py:443-456 | silent exactly when every row has an integer id and no two rows share one; the map it builds holds the rows by id |
| TraceCsv.CheckRows | tools/phasee06/check_trace_v2.py:462-477 | silent exactly when every row of a summarised event agrees with its summary in every column |
| TraceCsv.CheckTransferCsv | tools/phasee06/check_trace_v2.py:421-477 | silent exactly when columns, widths, counts, ids and cells are all in order |
| TraceReport.Sorted | tools/phasee06/check_trace_v2.py:279 | the ids in ascending order, each once |
| TraceReport.CheckEvents | tools/phasee06/check_trace_v2.py:277-378 | silent exactly when every event is in order, and whether each has one outcome |
| TraceReport.CheckFlags | tools/phasee06/check_trace_v2.py:385-402 | with one outcome for each id, silent exactly when no id is listed as incomplete, nothing was dropped and the completeness flag says so |
| TraceReport.Check | tools/phasee06/check_trace_v2.py:211-492 | reports no error, and raises none, if and only if everything in `Clean` holds; the rows of `TraceMeaning` say in plain terms what that is |
| TraceReport.IdsCorrespond | tools/phasee06/check_trace_v2.py:211-492 | after a clean report raw ids, summary ids and CSV rows are in one-to-one correspondence |
| TraceReport.OutcomeGuaranteed | tools/phasee06/check_trace_v2.py:211-492 | after a clean report every id has exactly one terminal raw event, its required roles all occur among its events, and no id is incomplete |
| TraceReport.NumbersAgree | tools/phasee06/check_trace_v2.py:341-477 | after a clean report a numeric column compared in both steps differs between CSV and raw outcome by at most the composed tolerance |
| TraceReport.CleanNeedNotBeComplete | tools/phasee06/check_trace_v2.py:393-402 | a clean report says complete exactly when the dropped count is zero, and stays clean with a negative count |
| TraceReport.ShadowedRowUnseen | tools/phasee06/check_trace_v2.py:271-275 | inserting any summary row before a later row of its id does not change the verdict |
| TraceMeaning.TextsAgree | tools/phasee06/check_trace_v2.py:341-477 | after a clean report a text column compared in both steps is the same text in CSV, summary and raw outcome; a truth value agrees by its lower-cased spelling; a missing value is an empty cell |
| TraceMeaning.ChangedTextRejected | tools/phasee06/check_trace_v2.py:462-477 | exchanging such a cell for any other text makes the report fail |
| TraceMeaning.NumberFields | tools/phasee06/check_trace_v2.py:22-100 | of the common and the outcome fields exactly seven are compared as numbers, the others as texts |
| TraceMeaning.StagesAgree | tools/phasee06/check_trace_v2.py:462-477 | a stage column is within tolerance of the duration of that stage in the summary |
| TraceMeaning.PollsAgree | tools/phasee06/check_trace_v2.py:353-363 | a polled event agrees with the raw outcome: its status member with the status, any other with the member of its name |
| TraceMeaning.EventsSay | tools/phasee06/check_trace_v2.py:239-264 | every raw event has arguments and a time that is not negative, and a span such a duration |
| TraceMeaning.TimesAscend | tools/phasee06/check_trace_v2.py:239-264 | finite times never go back over the whole list |
| TraceMeaning.EveryTransferListed | tools/phasee06/check_trace_v2.py:265-275 | a positive id of a raw event has a summary row and a CSV row that names it |
| TraceMeaning.ContextShared | tools/phasee06/check_trace_v2.py:286-304 | all events of a transfer carry schema 2, a stage role and the same spelling of every common key |
| TraceMeaning.OutcomeSays | tools/phasee06/check_trace_v2.py:305-335 | the outcome is an instant with all ten outcome fields; a direct attempt is labelled logical, and one that fell back to a relay says so with a reason |
| TraceMeaning.StagesNamed | tools/phasee06/check_trace_v2.py:162-187 | every transfer shows its outcome, and one that completed by moving bytes shows each stage of its path under the literal name |
| TraceMeaning.ColumnsSay | tools/phasee06/check_trace_v2.py:421-435 | the columns the CSV must have, by name |
| TraceMeaning.HeadSays | tools/phasee06/check_trace_v2.py:211-419 | all files present, both schemas 2, the counts equal, nothing incomplete or dropped, and the stage table under its seven columns |
| TraceExample.ExampleIsClean | tools/phasee06/check_trace_v2.py:211-492 | a trace of one transfer is reported clean and meets the hypotheses of `NumbersAgree` |
| KvCodec.Decode | tools/uflow_monitor_api.py:97-104 | both readers' loops collect the parts, a later entry replacing an earlier one |
| KvCodec.Encode | crates/uf-core/src/lib.rs:10-22 | the pushed text is the line of the entries in the order walked |
| KvCodec.EncodeKv | tools/uflow_monitor_api.py:87-94 | raises exactly when some value holds a separator, and otherwise gives the same line |
| KvCodec.SplitJoin | crates/uf-core/src/lib.rs:26 | splitting undoes joining for parts without a semicolon |
| KvCodec.JoinSplit | crates/uf-core/src/lib.rs:26 | joining undoes splitting, for every line |
| KvCodec.TrimEndExact | crates/uf-core/src/lib.rs:26 | trimming the end removes white space, all of it, and nothing else |
| KvCodec.TrimStartExact | tools/uflow_monitor_api.py:99 | likewise at the start |
| KvCodec.PaddingIgnored | tools/uflow_monitor_api.py:97-104 | a blank after a line changes nothing for either reader, and one before it nothing for Python |
| KvCodec.ReadPartExact | crates/uf-core/src/lib.rs:27-29 | a part yields a key and a value if and only if it is the key, an equals sign and the value, with no equals sign in the key |
| KvCodec.LineMeans | crates/uf-core/src/lib.rs:24-32 | for any line, also one no encoder produces: a key has a value if and only if the last part that begins with the key and an equals sign ends in that value |
| KvCodec.DecodeExact | crates/uf-core/src/lib.rs:24-32 | a line of distinct entries is read back if and only if every entry fits and neither edge is trimmed |
| KvCodec.RoundTrip | crates/uf-core/src/lib.rs:10-32 | for every map and every order of its keys the round trip holds if and only if no key has an equals sign or semicolon, no value has a semicolon, the last value does not end in white space and, for Python, the first key does not begin with it |
| KvCodec.PythonToRust | tools/uflow_monitor_api.py:87-94 | for a map Python's encoder takes, Rust reads the same map if and only if the keys are plain and the value inserted last does not end in white space; hence in any insertion order if no value does |
| KvCodec.LineInjective | crates/uf-core/src/lib.rs:10-22 | two maps that can be carried never share a line |

## Left out

- Sockets, descriptor passing, process plumbing, /proc parsing, fsync semantics beyond order, and `close`: they appear only through what they report.
- SHA-256 and JSON syntax: `Codec` states what is assumed of them. Non-integral JSON numbers and Python's NaN do not occur in the evidence formats and are not JSON values of the model.
- `Obj` values whose member names are one of the classified sets stand for no document; `Codec.Valid` treats them as documents of their own.
- KeyboardInterrupt and other exceptions that do not come from a modelled call.
- Argument checks of the witness constructors (run identity, directory ownership): the model starts after them.
- Supervisor.Witness.constructor: does not say when the first append succeeds, beyond what `EvidenceLog.Record` says of it.
- Deployment.Witness.constructor: likewise.
- Admission.CopyAttempts: does not model timings, pauses, the text of records other than phase, attempt and retry flags, or a client that returns values of the wrong type beyond missing fields.
- CostModel.LeastSquares: over the reals; floating-point rounding, infinities and overflow are not modelled.
- Percentile.PercentilesAgree: over the reals; the two floating-point results can differ in the last digit.
- TraceReport.Check: does not model the wording and number of messages, artifact files that are not JSON objects, list or object values used as set members (Python raises there), and integers too large for a float. The order of non-finite timestamps is a parameter.
- PayloadScan.ScanFile: the file is the sequence of chunks that the reads return; reading itself is not modelled.
- KvCodec.Encode: text is a sequence of characters; UTF-8 encoding and Python's replacement of undecodable bytes are not modelled. `str(value)` is taken as given.
- Bootstrap.Parse: the manifest's size and text are given; opening a private file and its identity are not modelled.
- TrustSlots.TrustSlot.Pin: the callbacks it installs appear as the `bound`, `childPin`, `bindingOk` and `anchored` inputs of the supervisor witness.
- ChunkPipeline.H2dChunked: streams and events are one completion per slot; timings are not modelled.
- The daemon, broker and bridge, the ACL bindings, the monitor's HTTP handlers and user interface, the benchmarks' size parsing and summaries, and the acceptance scripts: drivers or code that would only add easy members.
