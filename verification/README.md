# Verified models of nvim-remote-mirror

`nvim-remote-mirror` edits a remote tree through a local mirror: a sidecar beside
the editor talks to an agent beside the files. This project models the parts of
that system whose correctness depends on many steps taken together, and proves
what they promise, over every input, every interleaving or every run.

| files | part of the system |
|---|---|
| `Protocol.dfy`, `Peers.dfy`, `Channels.dfy`, `Transcripts.dfy` | the runtime stream protocol, two peers joined by queues, what accepted runs say about their numbered channels, and which transcripts are accepted at all |
| `OutputFlow.dfy`, `ServerMachine.dfy`, `AgentServer.dfy`, `AgentServerStreams.dfy`, `AgentServerBudget.dfy`, `AgentServerRuns.dfy`, `AgentServerTurns.dfy`, `AgentServerReports.dfy`, `AgentServerInput.dfy`, `AgentServerErrors.dfy`, `AgentServerProgress.dfy` | the agent's process server: output workers, input worker, reader and waiter as interleaved steps over shared state, and what its runs deliver, report, confirm and finish |
| `Uploads.dfy`, `Saves.dfy`, `WindowsReplace.dfy` | chunked uploads, compare-and-swap saves by many agents, and file replacement on Windows |
| `Grep.dfy` | paged search with retained walks |
| `CommandLine.dfy` | the Windows command-line encoder against the Microsoft C decoding rules |
| `LspText.dfy`, `LspUris.dfy`, `LspTargets.dfy`, `LspPaths.dfy` | rewriting of file URIs and paths between two roots |
| `Eviction.dfy`, `BomReader.dfy` | cache eviction, and the reader that removes a byte-order mark |

`dafny verify dfyconfig.toml` verifies all of it.

## Main results

- Two peers never disagree. `Peers.PeersNeverDisagree`: whatever is sent and
  delivered in whatever order, what one peer's machine let out the other's lets
  in, unless it has closed, and with nothing in flight both are in one phase.
- The state machine is its rules. `Transcripts.AcceptsTheLawful`: the transcripts
  it accepts are exactly those in which every message is permitted by what was
  said before it, a rule that mentions no phase and no counter.
  `Transcripts.ObserveAll` says the same of a peer's own machine, which of the two
  peers speaks included.
- An honest exit. `AgentServerRuns.ExitMeansDelivered`: an exit that does not
  admit truncation is sent only when every byte read is queued and acknowledged
  on all three flows, under every interleaving.
  `AgentServerReports.ExitTellsWhatHappened`: what it says of the process is the
  reason that was given first, or the process's own status if none was.
- Nothing is kept back. `AgentServerErrors.ErrorsAreToldExactly`: over every run an
  error is sent if and only if one of the named things went wrong while the machine
  was open. `AgentServerInput.InputIsConserved`: every accepted piece of input is
  confirmed, in hand or queued, in order, and `AgentServerInput.ConfirmedWasWritten`:
  none is confirmed that was not written.
- Work gets done. `AgentServerTurns.ServedWorkerDelivers` and
  `AgentServerTurns.ServedWaiterRetires`: on every schedule that gives a worker or
  the waiter its turns, the chunk in hand is brought to an end and the waiter
  retires with its last word said, within bounds that are stated.
- No lost update. `Saves.NoLostUpdate`: for any number of agents, single and
  chunked saves, crashes and outside writers, of two saves that expected one
  version the later goes through only if that version was put back.
  `Saves.EverySaveReplacesWhatItExpected` states the one window that remains over
  the history of changes, `Saves.WithoutOutsiders` that without outside writers
  there is none, and `Saves.AloneItSucceeds` that an undisturbed save does its work.
  `Saves.AnswersMean`: what was the case, in the history of the files, when a save
  was answered with success, a conflict or an error.
- Uploads last. `Uploads.UploadTable.ServeAll`: over any requests an upload is there
  exactly until it is finished, aborted or ten minutes old.
- Search misses nothing. `Grep.SearchAll`: a client that asks for page after page,
  while others search and its retained walk may be dropped, collects exactly all
  hits if only the cap on files cuts its pages; `Grep.PageExactly` says what any one
  page holds, whichever limits it met.
- Eviction leaves no choice. `Eviction.Cache.EvictToBudget` with
  `Eviction.EvictionIsDetermined`: what goes is fixed by age, leases and budget, and
  a budget error means exactly that the files that stay are too many, and any other
  failure exactly that a file in the way could neither go nor stay, or time ran out.
- Prefixes match as they should. `LspUris.SamePrefixExactly` and
  `LspPaths.StripsExactly` give, position by position, which spellings of a root are
  recognised, and `LspUris.SpelledUriIsCarried` and `LspPaths.PathIsCarried` carry
  every one of them.
- Exact conditions where a promise does not hold for all inputs:
  `Channels.AckPassesReachExactly`, `CommandLine.ArgumentsArriveExactly`,
  `LspTargets.RawTargetExactly`, `LspPaths.PathsLandExactly`,
  `LspUris.UriRoundTripExactly`, `LspPaths.PathRoundTripExactly`, and
  `WindowsReplace.Folder.ReplaceTemp` for what a failed replacement leaves.

## Where the code does not keep a promise

- A client may acknowledge a resumed watch at its opening sequence before the
  overflow that explains the skipped events is announced
  (`Channels.WatchAckBeforeOverflow`); it is the only acknowledgement that can
  pass what was delivered or announced.
- Between the second hash check and the rename a program that ignores the lock
  files can still write the target, and its content is then replaced
  (`Saves.OutsiderInTheWindow`).
- A program name with quotes in it can swallow or split the arguments
  (`CommandLine.OtherwiseArgumentsAreLost`), and a quoted program name that ends
  in a backslash is read back with more of them (`CommandLine.NameArrivesExactly`).
- A URI matched by its unencoded prefix is sent to the target's unencoded text,
  which is another path if that text has a percent sign, question mark or number
  sign (`LspTargets.RawTargetCanMiss`).
- A POSIX target that ends in a backslash loses it when a path is joined to it
  (`LspPaths.PathGoesAstray`).
- A comment in `cleanup_failed_replacement` says that a failed rollback keeps
  both the candidate and the backup. The candidate is gone if and only if the
  backup has been moved back over it and only the look afterwards fails. There is
  no backup if and only if one has been moved back and only the look afterwards
  fails, or `ReplaceFileW` failed without making one. In each case the original is
  at the target (`WindowsReplace.Folder.ReplaceExisting`, with `LosesCandidate`,
  `LosesBackup` and `MadeNoBackup`).
- The code removes and overwrites files by identity only, except in its cleanup:
  if another program's file has taken the staging name beforehand, the
  replacement is refused, and the cleanup then removes that file by its name
  (`WindowsReplace.Folder.ReplaceTemp`).

## Model

| member | source | states |
|---|---|---|
| `Protocol.StateMachine.constructor` | crates/nrm-protocol/src/runtime.rs:519-525 | a machine begins awaiting the client's hello |
| `Protocol.StateMachine.ObserveMessage` | crates/nrm-protocol/src/runtime.rs:543-567 | a message is validated, the paths of watch events included, then its sender, then the phase's rule; a refusal leaves the phase exactly as it was (what the rules amount to over a conversation is `Transcripts.ObserveAll`) |
| `Protocol.ValidExactly` | crates/nrm-protocol/src/runtime.rs:263-338 | a message is valid if and only if none of seventeen objections, each with its own limit, holds of it |
| `Peers.ClientMessagesNeverClose` | crates/nrm-protocol/src/runtime.rs:806-1087 | no message a client sends closes the stream, in any phase |
| `Peers.DiamondRunning` | crates/nrm-protocol/src/runtime.rs:1089-1223 | for a running process, an acceptable client message and an acceptable server message can be taken in either order with one result |
| `Peers.DiamondWatch` | crates/nrm-protocol/src/runtime.rs:1225-1288 | the same for a watch |
| `Peers.Diamond` | crates/nrm-protocol/src/runtime.rs:806-1288 | the same in every phase, except that a closing server message wins over a client message |
| `Peers.DiamondAgainstServer` | crates/nrm-protocol/src/runtime.rs:543-1288 | one client message commutes with any queue of server messages in flight |
| `Peers.DiamondAgainstClient` | crates/nrm-protocol/src/runtime.rs:543-1288 | one server message commutes with any queue of client messages in flight |
| `Peers.PlayKeeps` | crates/nrm-protocol/src/runtime.rs:543-1288 | every event keeps the peers bound to meet in one phase once the queues are empty |
| `Peers.PeersNeverDisagree` | crates/nrm-protocol/src/runtime.rs:543-1288 | in every reachable state the next delivery is accepted unless the receiver has closed, a closed client has an empty queue and a closed server, and empty queues mean equal phases |
| `Peers.DeliveryConverges` | crates/nrm-protocol/src/runtime.rs:543-1288 | from every reachable state, delivering what is in flight leaves both peers in the same phase |
| `Channels.TracksStep` | crates/nrm-protocol/src/runtime.rs:806-1288 | every accepted message keeps the counters of every channel equal to what the messages so far say about it |
| `Channels.AcceptedRunTracks` | crates/nrm-protocol/src/runtime.rs:806-1288 | after any accepted run the counters agree with the channel's own history |
| `Channels.ChannelsTile` | crates/nrm-protocol/src/runtime.rs:975-1288 | output and gap ranges, input ranges, and event and overflow ranges each tile one interval from the resume point or the opening, and an initial loss is announced before anything is delivered |
| `Channels.AckAcceptedExactly` | crates/nrm-protocol/src/runtime.rs:1552-1582 | an acknowledgement to a live channel is accepted if and only if it neither goes back nor passes what was delivered, and is refused for which of the two it does; on an output channel not while a loss is unannounced |
| `Channels.AckPassesReachExactly` | crates/nrm-protocol/src/runtime.rs:1225-1288 | an accepted acknowledgement passes what was delivered or announced if and only if it is a watch acknowledgement at the opening sequence before the overflow |
| `Channels.WatchAckBeforeOverflow` | crates/nrm-protocol/src/runtime.rs:1225-1288 | a run in which that happens |
| `Transcripts.AcceptedRunRemembers` | crates/nrm-protocol/src/runtime.rs:577-692 | the phase after any accepted run holds exactly the ids, session, flags and requests that the transcript shows |
| `Transcripts.AcceptedExactly` | crates/nrm-protocol/src/runtime.rs:806-1288 | after any accepted transcript a valid message is accepted if and only if the transcript permits it: versions, capability, request numbers, sessions, ids, offsets, losses, closing, detaching and stopping included |
| `Transcripts.AcceptsTheLawful` | crates/nrm-protocol/src/runtime.rs:543-1288 | a transcript is accepted if and only if each of its messages is valid and permitted by those before it |
| `Transcripts.ObserveAll` | crates/nrm-protocol/src/runtime.rs:340-567 | a peer's machine shown a whole conversation refuses none of it if and only if every message comes from the side that says such things and the transcript is lawful; else it refuses the first message with which that ends |
| `OutputFlow.ReserveKeepsWindow` | crates/nrm-agent/src/runtime.rs:314-342 | reserving stays within one mebibyte of the acknowledged offset and hands out the longest piece that fits, from where the last one ended; it waits exactly when the window is full, gives nothing exactly to who asks for nothing, and overflows only past sixty-four bits |
| `OutputFlow.OutputFlowCell.Reserve` | crates/nrm-agent/src/runtime.rs:314-342 | the locked pass of reserving has that outcome and new state, and keeps the window |
| `OutputFlow.OutputFlowCell.Acknowledge` | crates/nrm-agent/src/runtime.rs:344-355 | accepted if and only if between the acknowledged and the reserved offset; the bytes in flight do not grow |
| `OutputFlow.OutputFlowCell.Stop` | crates/nrm-agent/src/runtime.rs:378-384 | only the stop flag changes |
| `ServerMachine.OpeningIsStarted` | crates/nrm-agent/src/runtime.rs:62-210 | an attached process starts the server's machine in the phase the protocol prescribes |
| `ServerMachine.SendStepIsObserve` | crates/nrm-agent/src/runtime.rs:506-513 | for every frame a server sends, the small machine and the protocol's give one verdict and one successor |
| `ServerMachine.ReceiveStepIsObserve` | crates/nrm-agent/src/runtime.rs:670-811 | whatever the protocol's machine accepts from a client is one of the five kinds the reader loop handles, so its unreachable arm is never reached, and the successors agree |
| `AgentServerStreams.PublishAccepted` | crates/nrm-agent/src/runtime.rs:992-1026 | an open machine accepts the frame for a reserved range: no offset mismatch |
| `AgentServerStreams.SendsOk` | crates/nrm-agent/src/runtime.rs:992-1026 | publishing, accepted, refused or met by a full queue, keeps each stream's account of bytes read, owed and queued |
| `AgentServerBudget.PurseClaims` | crates/nrm-agent/src/runtime.rs:1296-1306 | a compare-exchange that succeeds keeps the shared total the smaller of the limit and what was claimed |
| `AgentServerBudget.PurseFlags` | crates/nrm-agent/src/runtime.rs:981-991 | raising the truncation flag keeps it true exactly when the limit was passed |
| `AgentServerRuns.WorkerStepInv` | crates/nrm-agent/src/runtime.rs:925-1035 | every step of an output worker keeps the invariant of the whole server |
| `AgentServerRuns.ReservesInv` | crates/nrm-agent/src/runtime.rs:992-1010 | reserving, in each of its outcomes, keeps it, the account of bytes read, owed and queued included |
| `AgentServerRuns.ReaderStepInv` | crates/nrm-agent/src/runtime.rs:670-836 | so does every step of the reader loop |
| `AgentServerRuns.InputStepInv` | crates/nrm-agent/src/runtime.rs:843-892 | so does every step of the input worker |
| `AgentServerRuns.WaiterStepInv` | crates/nrm-agent/src/runtime.rs:1104-1294 | so does every step of the waiter, with its deadlines and its shutdown of workers |
| `AgentServerRuns.WriterFailsInv` | crates/nrm-agent/src/runtime.rs:548-568 | so does a failure the writer thread records on its own |
| `AgentServerRuns.RunInv` | crates/nrm-agent/src/runtime.rs:548-1294 | the invariant holds after any interleaving, failures of the writer thread included |
| `AgentServerRuns.ExitMeansDelivered` | crates/nrm-agent/src/runtime.rs:1188-1294 | once an exit without truncation is sent, each stream's queued bytes are all the bytes its worker read, the worker is done, and acknowledged equals sent, though the flows are looked at one after another |
| `AgentServerRuns.WireOrder` | crates/nrm-agent/src/runtime.rs:506-591 | queued frames are accepted frames in order, nothing follows a terminal frame, and each stream's output frames abut and spell a prefix of what was read, full queues included |
| `AgentServerRuns.WindowsAgree` | crates/nrm-agent/src/runtime.rs:313-355 | flow acknowledged, machine acknowledged, machine next, flow sent and the window's end are in that order; an accepted acknowledgement fits the flow; no offset mismatch; the zero-length error is unreachable |
| `AgentServerRuns.BudgetIsExact` | crates/nrm-agent/src/runtime.rs:981-1325 | what was reserved is the smaller of the limit and what was claimed, and of what was read once the workers rest; the flag then says exactly whether more was read; an output-limit exit admits truncation |
| `AgentServerRuns.RestingTotals` | crates/nrm-agent/src/runtime.rs:952-1027 | when all workers are between chunks or done and undisturbed, all that was read was claimed |
| `AgentServerRuns.InputConfirmationsAccepted` | crates/nrm-agent/src/runtime.rs:843-892 | what the input worker confirms is refused only by a closed machine |
| `AgentServerProgress.ChunkIsDelivered` | crates/nrm-agent/src/runtime.rs:952-1027 | from any state in which budget and window have room there is a schedule on which a chunk that is read is queued whole, at the right offset, before the next read |
| `AgentServerProgress.ExitIsReported` | crates/nrm-agent/src/runtime.rs:1188-1325 | from any state with the workers done and everything acknowledged there is a schedule of the waiter alone that reports the exit: timed out, cancelled, over the limit or the process's own status, one clause for each reason, with the flag as it stands |
| `AgentServerTurns.AnyTurn` | crates/nrm-agent/src/runtime.rs:925-1035 | whatever thread moves, a worker with a chunk is done with it or no farther from that, and nearer if it was its turn; a failed compare-exchange costs a turn only if another worker took from the budget |
| `AgentServerTurns.ServedWorkerDelivers` | crates/nrm-agent/src/runtime.rs:925-1035 | from every reachable state and on every schedule, faults included, that gives the worker its turn a stated number of times while the window has room: the chunk comes to an end, and everything read is on the wire, or the budget is spent, or the worker ended for a named reason |
| `AgentServerTurns.CanBeServed` | crates/nrm-agent/src/runtime.rs:925-1035 | a worker with a chunk always has a step to take unless the window is full |
| `AgentServerTurns.ServedWaiterRetires` | crates/nrm-agent/src/runtime.rs:1104-1294 | every schedule that moves the waiter fifteen times, or until it retires, has it retired; after the process has exited it always has a next move; and when it has retired the writer has failed or the last accepted frame is the exit or an error |
| `AgentServerReports.ReasonExactly` | crates/nrm-agent/src/runtime.rs:1308-1310 | whatever thread moves, the first termination reason given stays, and only a timeout, a cancel or a spent budget gives one, each its own |
| `AgentServerReports.ReasonStays` | crates/nrm-agent/src/runtime.rs:1308-1310 | so along every run a reason once given never changes |
| `AgentServerReports.CancelCountsExactly` | crates/nrm-agent/src/runtime.rs:193-205 | after every run a reader that left its loop sets out to cancel if and only if the waiter has not yet joined or abandoned the workers, and the cancel is then the reason if and only if there was none |
| `AgentServerReports.ExitTellsWhatHappened` | crates/nrm-agent/src/runtime.rs:1104-1325 | in every run an accepted exit is the waiter's report, after it found nothing late, no worker panicked and the status to be had: timed out, cancelled or over the limit exactly if that was the reason it loaded, and else the process's own status; truncated exactly if the flag was up when it loaded that |
| `AgentServerErrors.ErrsExactly` | crates/nrm-agent/src/runtime.rs:506-1294 | an action adds an error frame if and only if it is one of those that fail and the machine is open |
| `AgentServerErrors.ErrorsAreToldExactly` | crates/nrm-agent/src/runtime.rs:506-1294 | in every run an error was accepted if and only if, with the machine open, a read or a write of the process failed, offsets ran out, a message was refused, the input queue was full or closed, a resize or signal failed, the client wanted to detach, or the waiter found the exit late, a worker panicked or no status |
| `AgentServerInput.InputIsConserved` | crates/nrm-agent/src/runtime.rs:670-892 | in every run what was confirmed is the beginning of what was accepted, in order; while the machine is open and the input worker there, the rest is in its hand, in the queue or about to be queued; the queue never holds more than sixteen |
| `AgentServerInput.ConfirmedWasWritten` | crates/nrm-agent/src/runtime.rs:843-892 | in every run the confirmed pieces are the first of those written, in the same order |
| `Uploads.ChunkKeepsAssembly` | crates/nrm-agent/src/main.rs:1300-1333 | a chunk, accepted, refused or broken off part way, leaves the written prefix equal to the accepted chunks and the file within its declared size; it is accepted exactly if it begins where they end, fits and is written whole, refused for its offset exactly if it begins elsewhere, and as too large exactly if it does not fit |
| `Uploads.CompleteFileIsAcceptedChunks` | crates/nrm-agent/src/main.rs:1300-1361 | for every sequence of chunks and retries, a file with all its bytes accepted is the accepted chunks joined, and nothing else |
| `Uploads.AddKeepsTable` | crates/nrm-agent/src/main.rs:1234-1298 | admitting an upload under the limits with fresh keys keeps the key set the disjoint union and the sums in bounds |
| `Uploads.RemoveKeepsTable` | crates/nrm-agent/src/main.rs:1433-1466 | releasing an upload's keys keeps the key set exactly those of the others |
| `Uploads.UploadTable.constructor` | crates/nrm-agent/src/main.rs:229-235 | the empty table satisfies the table's invariant |
| `Uploads.UploadTable.CleanupExpired` | crates/nrm-agent/src/main.rs:1444-1466 | an upload is still there, unchanged, if and only if it was there and is not older than ten minutes; the others go with their keys |
| `Uploads.UploadTable.ActiveBytes` | crates/nrm-agent/src/main.rs:1468-1483 | the sum of the declared sizes, however the table is traversed |
| `Uploads.UploadTable.Begin` | crates/nrm-agent/src/main.rs:1234-1298 | an upload is admitted exactly if there is room for it, its target is in order, its keys are unused, it has the lock, the target can be read and has the expected hash, and the temporary file is made; each refusal has its own condition, in the source's order; otherwise only expired uploads go; at most eight uploads and 512 MiB declared, with the active keys their disjoint union |
| `Uploads.UploadTable.WriteChunk` | crates/nrm-agent/src/main.rs:1300-1333 | exactly one upload changes, as the chunk rule says, and the table's invariant holds |
| `Uploads.UploadTable.Finish` | crates/nrm-agent/src/main.rs:1335-1431 | the upload and its keys are released whatever happens; an install happens exactly when all bytes are there with the declared hash and the target has the expected one, and installs the accepted chunks; each other answer has its own condition, the mismatch before the checks of identity and parent |
| `Uploads.UploadTable.Abort` | crates/nrm-agent/src/main.rs:1433-1442 | exactly that upload and the expired ones go |
| `Uploads.UnexpiredMeans` | crates/nrm-agent/src/main.rs:1444-1466 | the uploads that every request leaves in the table are those not older than ten minutes |
| `Uploads.UploadTable.Serve` | crates/nrm-agent/src/main.rs:1234-1466 | after one request, of any kind, an upload is there, the same but for its chunks, if and only if it was there, the request did not finish or abort it, and it was not too old for it |
| `Uploads.UploadTable.ServeAll` | crates/nrm-agent/src/main.rs:1234-1466 | over any sequence of requests: exactly as long as none finished or aborted it and none came later than ten minutes after its beginning |
| `Saves.OneHolder` | crates/nrm-agent/src/main.rs:2220-2264 | two saves of one target are never both past their lock files |
| `Saves.RenameWorks` | crates/nrm-agent/src/main.rs:1219-1220 | a rename spoils no other save's second check |
| `Saves.TryLockKeeps` | crates/nrm-agent/src/main.rs:2220-2264 | taking lock files one by one, or failing at one, keeps the invariant of all saves: a save holds exactly the lock files it has taken |
| `Saves.ChecksKeep` | crates/nrm-agent/src/main.rs:1156-1205 | so do the hash checks before and after staging |
| `Saves.RunKeeps` | crates/nrm-agent/src/main.rs:1113-1431 | the invariant holds after any interleaving of agents, crashes and outside writers |
| `Saves.EverySaveSawWhatItExpected` | crates/nrm-agent/src/main.rs:1113-1431 | the files are what the history of changes says; at its second check a save saw the version it expected, and no save changed the target between that look and its rename; uploads install their declared hash |
| `Saves.EverySaveReplacesWhatItExpected` | crates/nrm-agent/src/main.rs:1113-1431 | a save replaced another version than it expected if and only if an outsider made the last change of the target before the rename, after the second check, and left another version |
| `Saves.WithoutOutsiders` | crates/nrm-agent/src/main.rs:1113-1431 | in a run without outside writes every change is a save that replaced exactly the version it expected |
| `Saves.NoLostUpdate` | crates/nrm-agent/src/main.rs:1113-1431 | of two saves of a target that expected one version, the later went through only if that version had been put back in between, whatever outsiders do |
| `Saves.AnswersAreTrue` | crates/nrm-agent/src/main.rs:1199-1231 | a request answered with a conflict changed nothing, ever; one answered as applied changed its target (what else an answer means is `Saves.AnswersMean`) |
| `Saves.AnswersMean` | crates/nrm-agent/src/main.rs:1113-1431 | over every interleaving, for every answer: a conflict was given while the save held all its lock files and the target, by the history of changes, had another version than the request named; success after its rename; an error only because a lock file was held by another save, the upload was incomplete, or something failed; and which request it was, with which target, version and lock files |
| `Saves.SavesWereAskedFor` | crates/nrm-agent/src/main.rs:1113-1431 | every save in the history is one that was asked for, with the target and version of its request and, in one request, its content |
| `Saves.ContendedSaveFails` | crates/nrm-agent/src/main.rs:2220-2264 | a save that meets a lock file of another is answered with an error, whatever the target's version, and the world is as before |
| `Saves.AloneAnUploadSucceeds` | crates/nrm-agent/src/main.rs:1234-1431 | in any world an undisturbed upload of a content in one chunk installs it and is reported as applied if the expected version is there |
| `Saves.AloneItSucceeds` | crates/nrm-agent/src/main.rs:1113-1231 | in any world an undisturbed save installs its content and is reported as applied if the expected version is there, and otherwise changes nothing and is reported as a conflict; its lock file is released |
| `Saves.OutsiderInTheWindow` | crates/nrm-agent/src/main.rs:1199-1219 | a run in which an outside write between the second check and the rename is replaced and the save reported as applied |
| `WindowsReplace.Folder.Recover` | crates/nrm-agent/src/main.rs:2783-2928 | from any state of the folder: it succeeds if and only if the original is seen at the target with no backup left, or is moved back there and seen; what is then under each name; no file of others is touched |
| `WindowsReplace.Folder.Restore` | crates/nrm-agent/src/main.rs:2857-2927 | the rollback goes over the candidate or over nothing, and says what is then under each name |
| `WindowsReplace.Folder.ReplaceExisting` | crates/nrm-agent/src/main.rs:3018-3107 | once the checks have passed: which faults give which of the three outcomes; done means the candidate alone is there, an error means the original is in place without a backup, a failed rollback has the original at target or backup; exactly when it has lost the candidate and exactly when there is no backup; files others create on the way stay |
| `WindowsReplace.Folder.ReplaceRaw` | crates/nrm-agent/src/main.rs:2931-3108 | the same with the checks before it, which leave everything as it was if one fails, and the exact outcome for a target that did not exist; no file of others is touched under any name |
| `WindowsReplace.Folder.ReplaceTemp` | crates/nrm-agent/src/main.rs:2392-2435 | the same with the cleanup: an error leaves the original in place and no staged file unless its removal fails; files of others at target and backup stay; a file of others under the staging name gives an error and is removed if and only if the cleanup works |
| `WindowsReplace.Folder.RemoveOriginal` | crates/nrm-agent/src/main.rs:2763-2780 | removes the name only if it is the expected file |
| `Grep.Clamped` | crates/nrm-agent/src/main.rs:953-964 | each cap is the smaller of the caller's and the agent's own, or the agent's if the caller gives none; a page may always open one file |
| `Grep.FindIsFirst` | crates/nrm-agent/src/main.rs:1024-1052 | a query that stands anywhere in a line is found, and at the first place where it stands |
| `Grep.HitMeans` | crates/nrm-agent/src/main.rs:1024-1052 | the hits of a file are exactly one for every line in which the query stands, with line and place counted from one, at the first place |
| `Grep.SearchLines` | crates/nrm-agent/src/main.rs:1024-1052 | the loop over lines, with its three ways out, computes the page function; what that answers, whichever limit it met, is `Grep.PageExactly` |
| `Grep.SearchEntry` | crates/nrm-agent/src/main.rs:974-1056 | so does the treatment of one entry |
| `Grep.Searcher.Advance` | crates/nrm-agent/src/main.rs:971-1056 | one loop serves a position and a cursor: with a cursor it is the page behind the first file of that name, or an error |
| `Grep.Searcher.Grep` | crates/nrm-agent/src/main.rs:911-1091 | the answer is that of the requested page; a session is kept if and only if there is a cursor, at the page's position, under the number it was resumed by or a new one, and no other is given up unless there were eight; at most eight sessions (what the pages hold is `Grep.PageExactly` and `Grep.SearchAll`) |
| `Grep.Searcher.Keep` | crates/nrm-agent/src/main.rs:1060-1082 | the walk is retained under its old number or the next new one; every other walk stays as it is, but for one if there were eight already |
| `Grep.EitherWayTheSame` | crates/nrm-agent/src/main.rs:932-1082 | after any truncated page, every later request gets the same page from the retained walk and from the cursor on a fresh walk |
| `Grep.PageComplete` | crates/nrm-agent/src/main.rs:971-1056 | a page that met no byte or hit limit has every hit of the stretch it covered |
| `Grep.PageExactly` | crates/nrm-agent/src/main.rs:966-1060 | whichever limits it met, a page's hits are some of those in the stretch it covered, in order; without a byte limit the first of them, all or as many as the limit; the hit limit was met if and only if there are that many; files counted and cursor are the opened files and the last of them |
| `Grep.PageReads` | crates/nrm-agent/src/main.rs:966-1060 | a page fails exactly at an entry that cannot be walked or probed, and has read the bytes of exactly the files that fit the caps |
| `Grep.UntruncatedFindsAll` | crates/nrm-agent/src/main.rs:1058-1059 | a first page that is not truncated has every hit of every readable text file |
| `Grep.FileCapLosesNothing` | crates/nrm-agent/src/main.rs:971-1082 | pages cut by the cap on files alone, put together, are exactly all the hits |
| `Grep.SearchAll` | crates/nrm-agent/src/main.rs:911-1091 | a client that asks for page after page, first perhaps with a number retained for another query, while other searches come between and its own walk may be dropped, collects hits of the tree in order, and exactly all of them if the cap on files alone cuts its pages |
| `Grep.PageWithinCaps` | crates/nrm-agent/src/main.rs:971-1056 | no page has more hits, files, bytes or hit text than its caps allow |
| `Grep.FittingTreeIsNotTruncated` | crates/nrm-agent/src/main.rs:971-1060 | a tree that fits the caps is searched to its end in one page that is not truncated |
| `CommandLine.AppendQuotedArgument` | crates/nrm-pty/src/windows.rs:1560-1594 | refuses exactly the texts with a NUL, and otherwise appends the escaped form that the decoding lemmas are about |
| `CommandLine.QuotedOnlyIfNeeded` | crates/nrm-pty/src/windows.rs:1560-1594 | a text is appended as it is if and only if it is not empty and has no space, tab or quote; else it is longer and stands in quotes |
| `CommandLine.NativeCommandLine` | crates/nrm-pty/src/windows.rs:1085-1094 | the line is refused exactly if some text has a NUL, and otherwise has program, arguments and terminator in place |
| `CommandLine.ArgumentsRoundTrip` | crates/nrm-pty/src/windows.rs:1085-1094 | the C runtime's rules read back every list of NUL-free arguments |
| `CommandLine.SelfContainedRoundTrip` | crates/nrm-pty/src/windows.rs:1085-1094 | behind any program whose quotes pair up around its blanks, the arguments of the whole line are read back |
| `CommandLine.OtherwiseArgumentsAreLost` | crates/nrm-pty/src/windows.rs:1085-1094 | behind any other program some argument list is not |
| `CommandLine.ArgumentsArriveExactly` | crates/nrm-pty/src/windows.rs:1085-1094 | the exact condition: every argument list arrives if and only if the program has no blank after an odd number of quotes and evenly many quotes |
| `CommandLine.QuotelessIsSelfContained` | crates/nrm-pty/src/windows.rs:1085-1094 | every program without a quote meets it |
| `CommandLine.NameArrivesExactly` | crates/nrm-pty/src/windows.rs:1560-1594 | the program reads its own name back if and only if it has no quote and, when it had to be quoted, no final backslash |
| `LspText.NoDotSegmentsMeans` | crates/nrm-sidecar/src/lsp_rewrite.rs:180-199 | splitting finds no dot segment if and only if nowhere one or two dots stand between separators or ends |
| `LspText.StyleExactly` | crates/nrm-sidecar/src/lsp_rewrite.rs:110-121 | a path is a Windows path if and only if it begins with a letter, a colon and a slash of either kind |
| `LspText.TraversalMeans` | crates/nrm-sidecar/src/lsp_rewrite.rs:172-178 | between two roots a path passes if and only if neither style finds a dot segment in it |
| `LspText.CaseMeans` | crates/nrm-sidecar/src/lsp_rewrite.rs:148-163 | comparing without case tells apart all bytes but the two cases of a letter |
| `LspUris.WhitespaceMeans` | crates/nrm-sidecar/src/lsp_rewrite.rs:64-67 | a text is refused as blank if and only if one of the Unicode white-space characters stands in it, in UTF-8 |
| `LspUris.StrictPercentDecode` | crates/nrm-sidecar/src/lsp_rewrite.rs:201-225 | the index loop decodes every escape and fails on every malformed one; when that is, is `LspUris.DecodeExactly` |
| `LspUris.DecodeExactly` | crates/nrm-sidecar/src/lsp_rewrite.rs:201-225 | decoding succeeds if and only if two hexadecimal digits follow every percent sign |
| `LspUris.EncodesExactly` | crates/nrm-sidecar/src/lsp_rewrite.rs:363-374 | letters, digits and the six unreserved marks stay, and every other byte is escaped |
| `LspUris.WindowsUri` | crates/nrm-sidecar/src/lsp_rewrite.rs:355-361 | the URI of a Windows path, encoded and raw: `file://`, a slash, the drive, and every backslash a slash |
| `LspUris.PosixUri` | crates/nrm-sidecar/src/lsp_rewrite.rs:355-361 | the URI of any other path: `file://` and the path |
| `LspUris.DecodeEncode` | crates/nrm-sidecar/src/lsp_rewrite.rs:363-374 | strict decoding inverts the encoding for every byte string, whatever follows it |
| `LspUris.UriPrefixEq` | crates/nrm-sidecar/src/lsp_rewrite.rs:279-315 | the index loop decides the prefix relation whose meaning `LspUris.SamePrefixExactly` and `LspTargets.MatchedPath` give |
| `LspUris.SamePrefixExactly` | crates/nrm-sidecar/src/lsp_rewrite.rs:279-315 | a text matches an encoded prefix if and only if it agrees with it at every position, up to the case of the scheme, of the drive letter of a Windows prefix, and of the hexadecimal digits of its escapes |
| `LspUris.SpelledUriIsCarried` | crates/nrm-sidecar/src/lsp_rewrite.rs:64-90 | every such spelling of the source's prefix, followed by nothing, a path at a separator, a query or a fragment, is rewritten to the target's prefix with what followed |
| `LspUris.RawUriIsCarried` | crates/nrm-sidecar/src/lsp_rewrite.rs:64-90 | a text with the source's raw prefix, where the encoded one does not match, is rewritten to the target's raw prefix |
| `LspUris.UriRoundTripExactly` | crates/nrm-sidecar/src/lsp_rewrite.rs:64-90 | rewritten there and back, a URI is its canonical source prefix and the same suffix if and only if both prefixes or neither end in a slash, or no path follows |
| `LspUris.UriRestored` | crates/nrm-sidecar/src/lsp_rewrite.rs:64-90 | between prefixes that do not end in a slash, a URI that begins with the encoded prefix comes back unchanged |
| `LspUris.FileUriIsCarried` | crates/nrm-sidecar/src/lsp_rewrite.rs:64-90 | the URI of any file below the source becomes the URI of the same file below the target |
| `LspTargets.MatchedPath` | crates/nrm-sidecar/src/lsp_rewrite.rs:256-315 | a text that matches an encoded prefix names the prefix's path, but for the case of a drive letter, and below it what its suffix names |
| `LspTargets.SameRelativePath` | crates/nrm-sidecar/src/lsp_rewrite.rs:64-90 | a URI rewritten by its encoded prefix named a path below the source and now names the same relative path below the target, at a separator, without dot segments |
| `LspTargets.RawTargetExactly` | crates/nrm-sidecar/src/lsp_rewrite.rs:338-353 | rewritten by its raw prefix it points below the target, with no dot segment after it, if and only if the target has no percent sign, question mark or number sign |
| `LspTargets.NeverCatchesUp` | crates/nrm-sidecar/src/lsp_rewrite.rs:201-216 | a text with a percent sign is never a prefix of its own decoding |
| `LspTargets.RawTargetCanMiss` | crates/nrm-sidecar/src/lsp_rewrite.rs:338-353 | a root for which it points elsewhere |
| `LspPaths.JoinRewrittenPath` | crates/nrm-sidecar/src/lsp_rewrite.rs:227-254 | the loop that replaces separators computes the joined path the path lemmas speak about |
| `LspPaths.StripsExactly` | crates/nrm-sidecar/src/lsp_rewrite.rs:123-163 | a path is recognised as the root or below it if and only if it begins with the root, up to the case of the drive letter and the kind of slash on Windows, and ends there or goes on at a separator, at a whole character |
| `LspPaths.RelativeHasNoDots` | crates/nrm-sidecar/src/lsp_rewrite.rs:172-184 | trimming and replacing separators bring no dot segment about, for either pair of styles |
| `LspPaths.PathLands` | crates/nrm-sidecar/src/lsp_rewrite.rs:92-102 | a rewritten path is the target or below it at a separator without dot segments |
| `LspPaths.PathGoesAstray` | crates/nrm-sidecar/src/lsp_rewrite.rs:248-253 | for a POSIX target that ends in a backslash some path is not |
| `LspPaths.PathsLandExactly` | crates/nrm-sidecar/src/lsp_rewrite.rs:92-102 | every rewritten path lands there if and only if the target, without its own trailing separators, does not end in a backslash |
| `LspPaths.PathRoundTripExactly` | crates/nrm-sidecar/src/lsp_rewrite.rs:92-163 | between roots of either style with at most one trailing separator, any path is restored by the reverse rewrite if and only if it is the source itself, or the source spelled as it is, its own separator, and a text that begins with no separator, holds no other kind of separator and is not empty when the target ends in a separator |
| `LspPaths.PathIsCarried` | crates/nrm-sidecar/src/lsp_rewrite.rs:92-102 | any file below the source, however the root is spelled, in either style, becomes the same file below the target with the target's separators, roots that end in a separator included |
| `Eviction.Scan` | crates/nrm-registry/src/fetch.rs:1540-1566 | the regular files with their total, saturated at the top of sixty-four bits |
| `Eviction.SortedIsOrdered` | crates/nrm-registry/src/fetch.rs:1573-1573 | sorting by time and path permutes the files into that order |
| `Eviction.OverBudgetExactly` | crates/nrm-registry/src/fetch.rs:1575-1622 | any eviction that keeps the promise and does not fail reports a budget error if and only if the protected and leased files exceed the budget |
| `Eviction.EvictionIsDetermined` | crates/nrm-registry/src/fetch.rs:1575-1622 | two evictions of the same files under the same leases and budget that keep the promise and do not fail leave the same files |
| `Eviction.Cache.EvictInOrder` | crates/nrm-registry/src/fetch.rs:1575-1622 | what leaves the disk is what was deleted or found missing; protected and leased files stay; nothing goes while a file used earlier that could go is left, or while the rest is within budget; a budget error means nothing more can go; it fails if and only if a file reached over budget could neither go nor stay or met the deadline |
| `Eviction.Cache.EvictToBudget` | crates/nrm-registry/src/fetch.rs:1540-1624 | the same for the whole operation; success leaves the files within budget, the amount reported is what is left, it ends in a budget error if and only if the files that have to stay exceed the budget, and fails otherwise exactly for an unreadable listing, a deadline, or a file in the way |
| `Eviction.Cache.EvictForResult` | crates/nrm-registry/src/fetch.rs:1329-1346 | the same with the artifact asked for protected, and its manifest and signature exactly when they are there and all fit |
| `BomReader.LeadingBomReader.constructor` | crates/nrm-sidecar/src/bom_reader.rs:20-30 | everything expected of the stream is still to come |
| `BomReader.LeadingBomReader.Initialize` | crates/nrm-sidecar/src/bom_reader.rs:33-63 | looking for the mark changes nothing of what is to come, except that an error before the first byte is handed on and the search starts over |
| `BomReader.LeadingBomReader.Read` | crates/nrm-sidecar/src/bom_reader.rs:67-105 | what a call returns and what is still to come are together what was to come before it, so an error is reported once and after the bytes before it; nothing is returned into free room only if the inner reader gave nothing |
| `BomReader.ReadAll` | crates/nrm-sidecar/src/bom_reader.rs:67-105 | any run of reads, whatever the buffer sizes and pieces, returns the expected stream from its start |
| `BomReader.ReadToEnd` | crates/nrm-sidecar/src/bom_reader.rs:67-105 | reading on into buffers with room comes to an end, and the replies are then all of the expected stream |
| `BomReader.ReadStream` | crates/nrm-sidecar/src/bom_reader.rs:20-105 | from a new reader to its end, whatever the pieces and buffer sizes: the replies are the inner stream, errors included, without the one mark it begins with; for bytes alone they join to exactly the bytes after it |
| `BomReader.OneMarkRemoved` | crates/nrm-sidecar/src/bom_reader.rs:33-63 | the expected stream is the inner one, byte for byte and error for error, without one mark if and only if it begins with it in one stretch |
| `BomReader.BytesLoseTheMark` | crates/nrm-sidecar/src/bom_reader.rs:33-63 | a stream of bytes alone loses one leading mark and nothing else |

## Conventions

- Both peers of the protocol have the same supported capabilities and package
  version. The validators of free text (argument lists, directories, environment,
  paths of watch events) enter as their verdict.
- In the server every region under one lock and every atomic access is one step;
  deadlines, room in the writer queue, read results and panics are free choices.
  Memory is sequentially consistent.
- Hashes are an arbitrary function of the content. Lock keys include the target's
  path below one root, so the claims about saves are for agents serving one root;
  further keys may be added freely. Upload numbers are fresh.
- On Windows the documented outcomes of `ReplaceFileW` are assumed and the checks
  of the pinned parent chain pass. Other programs' files may be under the staging
  and the backup name from the start, and others may be created under the
  target's or the backup's name when it is free after the replacing call; none is
  taken away.
- A search runs over a tree that does not change. Texts of URIs and paths are
  bytes; white space is recognised in UTF-8. Where it matters that a text consists
  of whole characters, as every string of the source does, the claim says so.

## Left out

- Frame encoding and decoding, and how the writer thread empties the queue (that it may fail is modelled): library codec and plain input and output.
- Spawning, signalling and waiting for processes, pseudo-terminals and thread joins: only their outcomes appear, as choices.
- Detached sessions: the agent serves attached processes only; the protocol model has the messages, the server model has no session.
- Text validators of the protocol, executable headers, manifests, signatures, downloads and URL policy.
- Path canonicalisation, symbolic links, ownership checks and the hardening of the lock directory.
- Removal of temporary files after a failed hash, which the source does not promise.
- The JSON traversal that applies the URI and path rewriting, and the merging of colliding keys.
- Directory scans, batch reads and git requests: easy loops or wrappers.
- Completeness of search pages under the byte caps: the file that meets the total cap is counted and not read, so only the cap on files pages without loss.
- Environment blocks and child paths of the Windows launcher.
- Transcripts.AcceptedExactly: says which messages are refused, not with which error code; the codes are those of the step function in `Protocol.dfy`.
- AgentServerProgress.ChunkIsDelivered: a schedule that gets there, not a promise about every schedule; what every schedule promises is `AgentServerTurns.ServedWorkerDelivers`.
- AgentServerProgress.ExitIsReported: the same, with `AgentServerTurns.ServedWaiterRetires` for every schedule.
- AgentServerTurns.ServedWorkerDelivers: turns are counted only while the window has room; that the client acknowledges is not promised by the server.
- Eviction.Cache.EvictToBudget: the amounts are exact for caches below two to the sixty-fourth bytes, because the source adds sizes with saturation.
- WindowsReplace.Folder.ReplaceTemp: files other programs remove or put in place of existing ones during the call are not modelled, a window the source itself describes; a file of others is kept at target and backup only, because the cleanup removes whatever has the staging name.
