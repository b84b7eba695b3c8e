# rpictl-mcp control plane: a verified model

`rpictl-mcp` controls boards over a serial console and a power relay. Several agents and an
interactive console share one daemon, so what an operation reports depends on a bounded buffer
that another thread fills, on pattern matches in windows of it, on a lease, on external power
commands and on a byte protocol. This project models those parts and proves what an operation's
success says about the board, in every run.

| file | what it models |
|---|---|
| `Basics.dfy` | bytes, errors and results; searching byte strings |
| `Serial.dfy` | the serial ring as a class, refining an unbounded, generation-tagged history |
| `Snapshots.dfy` | what both kinds of snapshot mean for that history; readers that poll |
| `Detector.dfy` | the board-state detector and how its verdict behaves on windows of a text |
| `Boards.dfy` | one board seen by a running operation: console writes and the wait loops, against other threads |
| `PowerCommand.dfy` | one external power command: output budget, deadline, kill and reap |
| `Relay.dfy`, `PowerControl.dfy` | status queries, verified relay changes and the power cycle, against any answers |
| `CommandFraming.dfy` | the wire form of a console command and its completion marker |
| `Operations.dfy` | entering U-Boot, graceful power-off, power cycle and console commands as programs |
| `PowerOnUboot.dfy` | power-on to a U-Boot prompt as a step system: main thread, worker, serial input, clock |
| `Lease.dfy` | the board lease as a step system of any number of threads |
| `ControlPlane.dfy` | all requests on one board together: lease, UART writes, relay changes |
| `Console.dfy`, `Demux.dfy` | the console protocol in both directions |
| `Keystrokes.dfy` | what the keys typed at the client mean, said of the keys alone |
| `ConsoleStream.dfy` | every stream that the server can receive, and what it makes of it |

What the environment decides (what arrives and when, what the pipes and the relay answer, how long
things take, which thread runs) is a parameter or a free choice of a step, so each statement holds
for every such behaviour. The clocks only ever go forward.

The code that changes state step by step is modelled by classes and methods with loops, each tied
by its `ensures` to a specification (`History`, `Covers`, `Delivered`, `Query`, `Switch`, `Typed`,
`Parsed`, `Taken`); the lemmas are about those. The detector is a function, as in the source. The
protocols between threads are step systems with inductive invariants.

## Where the code and its documents, or its messages, disagree

The model follows the code. Each of these is a lemma below.

- A power cycle does anything at all after switching off exactly when the off command was accepted
  and the verifying read succeeded and said off (`Relay.RestorationNeedsVerifiedOff`). If the off
  command itself fails, perhaps after the relay has acted on it, or the verifying read fails, nothing
  switches it on again (`Relay.FailedOffCanStayOff`, `Relay.AcceptedOffCanStayOff`), although
  `docs/rpictl_mcp_srs.md` promises a restoration "once power is off" (lines 256-257) and that no
  other operation leaves a board powered off (lines 397-398).
- That document wants the identity verified before control and the change verified by a later query
  (lines 390-393). The code does both, but ignores what the later query says about the identity. It
  reports the device identified exactly when the profile names none or the last command found it
  (`Relay.VerifyingReadIdentifies`), and succeeds either way (`Relay.FinalReadMayBeUnidentified`).
- A Linux command whose completion has not been seen is reported as a nonzero exit as soon as the
  echo of its own wire text is in the output; the "marker was not observed" report is given exactly
  when not even that echo is there (`CommandFraming.UnfinishedCommandReportsNonzeroExit`,
  `CommandFraming.MissingMarkerReported`).
- The console protocol is not transparent to NUL: the exact conditions for both directions are
  `Console.ServerUnderstandsClient` and `Demux.ClientUnderstandsServer`.
- `README.md` of the repository says that leases keep write operations from interleaving. Active
  probes write without the lease, and can come between any two writes of an operation
  (`ControlPlane.ProbesInterleave`); without them the statement holds
  (`ControlPlane.WritesAreSerialized`).
- The lease does not queue (`Lease.BargingIsPossible`).

## Model

| member | source | states |
|---|---|---|
| `Serial.SerialRing.constructor` | src/serial.rs:29-38 | a new ring stands for the empty history of generation 0 |
| `Serial.SerialRing.MarkGeneration` | src/serial.rs:45-48 | the next generation begins; retained bytes and their tags are untouched |
| `Serial.SerialRing.Append` | src/serial.rs:49-81 | the history grows by exactly the input, tagged with the current generation; afterwards the chunks are nonempty, contiguous and hold exactly the last min(capacity, total) bytes with their own tags; the old next cursor is returned |
| `Serial.SerialRing.EvictOldest` | src/serial.rs:67-79 | from the overfull state of an append, cursor gap included, the loop terminates, always finds a front chunk, and ends in a ring that retains the newest bytes |
| `Serial.PushOverfills` | src/serial.rs:55-67 | pushing the new chunk onto a valid ring gives that intermediate state, also for an input larger than the capacity |
| `Serial.EvictionRetains` | src/serial.rs:68-79 | the intermediate state, once within capacity, is a valid ring again and the gap is gone |
| `Serial.SerialRing.SnapshotFrom` | src/serial.rs:82-116 | the oldest maxBytes retained bytes at or after the cursor, as chunks with their true cursors and tags; next cursor and truncation flag as defined on the history |
| `Serial.SerialRing.RetainedBytes` | src/serial.rs:119-124 | the retained bytes of a generation are counted exactly |
| `Serial.SerialRing.SnapshotGeneration` | src/serial.rs:118-157 | the newest maxBytes retained bytes of a generation, as chunks with their true cursors; next cursor and truncation flag as defined on the history |
| `Serial.GenerationStartSplits` | src/serial.rs:45-48 | tags never decrease, so each generation begins at one place in the history |
| `Snapshots.SnapshotFromIsSlice` | src/serial.rs:82-116 | a cursor snapshot is one slice of the whole history, and its next cursor is where that slice ends |
| `Snapshots.TruncationIsExact` | src/serial.rs:111-115 | for cursors within the history, truncated is set if and only if the bytes differ from the whole rest of the history |
| `Snapshots.GenerationInterval` | src/serial.rs:118-124 | the retained bytes of a generation are one contiguous interval of cursors |
| `Snapshots.SnapshotOfGenerationIsSlice` | src/serial.rs:118-157 | a generation snapshot is the last min(maxBytes, available) bytes of that interval, and truncated exactly when it is not all of it |
| `Snapshots.GenerationSnapshotAgreesWithCursor` | src/serial.rs:82-157 | for the current generation it agrees, in bytes and next cursor, with a cursor snapshot from max(oldest, generation start, next cursor - maxBytes) |
| `Snapshots.Replay` | src/serial.rs:49-116 | over any mix of appends, marks and polls, the real ring gives the polls that the history predicts |
| `Snapshots.PollsPartitionHistory` | src/serial.rs:82-116 | polls that each resume from the last next cursor return the history with exactly the evicted intervals missing: nothing repeated, reordered or silently skipped |
| `Snapshots.PunctualPollsLoseNothing` | src/serial.rs:82-116 | if no poll finds its cursor older than the oldest retained byte, the answers concatenate to the history itself |
| `Detector.LatestMeaning` | src/state.rs:42-64 | the match chosen is an occurrence of a configured pattern with the greatest start of all occurrences of all patterns, and of equal starts the one later in the list; no match means no occurrence at all |
| `Detector.WinnerIsUnique` | src/state.rs:58-64 | only one match fits that description |
| `Detector.ObservedStateMeaning` | src/state.rs:42-84 | a state of the list is reported if and only if the pattern at its place in the list has the winning occurrence, and the evidence is that pattern |
| `Detector.StatesByField` | src/state.rs:44-66 | over the profile's own fields: each state is reported if and only if its field's pattern occurs at a place where no other starts later and none listed after it starts as late |
| `Detector.EvidenceByField` | src/state.rs:44-83 | which field of the profile is quoted for each state, and unknown is reported if and only if none of the six configured patterns occurs |
| `Detector.SuffixAgrees` | src/state.rs:42-84 | on any suffix the verdict is unknown or the same match, at the same place, as on the whole text |
| `Detector.QuietBytesChangeNothing` | src/state.rs:42-84 | appended bytes in which no occurrence ends never change the verdict |
| `Boards.Board.WriteConsole` | src/operations.rs:322-357 | bytes go out in order and paced, whatever arrives meanwhile; after a port failure a prefix went out; it fails only if the port does |
| `Boards.Board.ObservedState` | src/operations.rs:359-377 | the verdict on the newest 64 KiB retained of the current generation |
| `Boards.Board.WaitForStates` | src/operations.rs:379-420 | success is a requested verdict on the current window, in the requested generation; failure is a timeout: all looks but the last were before the deadline, and the last was after it and still unsuccessful; looks are 100 ms apart; the loop terminates |
| `Boards.Board.WaitForStatesAfterChecked` | src/operations.rs:432-473 | the same for output at or after the cursor; the only other failure is the check's own error |
| `Boards.Board.WaitForStatesAfter` | src/operations.rs:422-430 | the same with no check |
| `Boards.WindowDecides` | src/operations.rs:451-462 | a state seen in a window is decided by one occurrence of its pattern in the history, wholly inside the window, and conversely |
| `Boards.BoundedViewAgrees` | src/operations.rs:359-377 | the observed state is unknown or exactly what the whole output of the current generation shows, despite eviction and the 64 KiB limit |
| `Boards.FreshWaitUsesFreshEvidence` | src/operations.rs:432-473 | a wait after a cursor rests on an occurrence wholly at or after it, and on no byte older than any generation marked before the cursor |
| `Boards.UntruncatedWaitIsComplete` | src/operations.rs:451-462 | when the deciding snapshot is not truncated, the wait decides on everything since its cursor |
| `Boards.GenerationWindowSize` | src/operations.rs:368 | the current state is decided on the newest 65536 retained bytes of the generation, or all there are |
| `Boards.CursorWindowSize` | src/operations.rs:451 | a wait for fresh output sees the oldest 65536 retained bytes after its cursor, or all there are |
| `PowerCommand.CollectPowerOutput` | src/operations.rs:76-114 | buffer and budget change together; exactly which reads end the pipe, and which fail and how |
| `PowerCommand.DeliveredGrows` | src/operations.rs:96 | what a pipe has delivered is a prefix of what it delivers later |
| `PowerCommand.EndedIsComplete` | src/operations.rs:154-165 | what was delivered when a pipe ends is all that it ever delivers |
| `PowerCommand.WholeOutputIsUnique` | src/operations.rs:154-171 | the complete output that Ok promises is determined by the pipe alone, not by the number of reads it took |
| `PowerCommand.ReadPipes` | src/operations.rs:153-161 | one iteration reads each pipe that has not ended once; budget and buffers stay in balance, also when a read fails half-way |
| `PowerCommand.Iterate` | src/operations.rs:145-177 | one iteration ends the command, with a result that has a cause, or consumes budget, or reads nothing and sleeps exactly 10 ms |
| `PowerCommand.Supervise` | src/operations.rs:137-178 | stdout, stderr and the remaining budget always make 1 MiB, each buffer is an exact prefix of its pipe, the time taken is that of the iterations plus 10 ms for each that reads nothing, and it stops within 1 MiB + ceil(time left / 10 ms) + 1 iterations |
| `PowerCommand.KillAndReap` | src/operations.rs:179-186 | after an error the group is killed while its leader is unreaped, and only then is the leader reaped; a failing wait replaces the error |
| `PowerCommand.RunPowerCommand` | src/operations.rs:116-188 | Ok carries both complete outputs and the exit status its last iteration read; an error names a true cause: the deadline has passed, what was read exceeds the budget, or something failed in the last iteration, in the launch or in the final wait; the group is signalled only while the leader is unreaped; a spawned child is reaped exactly once if waiting works; nothing is launched after the deadline; the time taken is exact |
| `PowerControl.PowerController.PowerStateUntil` | src/operations.rs:226-278 | issues exactly the commands of a status query, one after the other, all under the caller's deadline, concludes what their answers say, and reports each failure under the phase of its command |
| `PowerControl.PowerController.SetPower` | src/operations.rs:280-320 | issues exactly the commands of a relay change, one after the other, all under one deadline, within five times one command's iteration bound; reports each failure under the phase of its command |
| `Relay.ReportedMeaning` | src/operations.rs:241-259 | a read reports on if and only if stdout followed by stderr contains "OnOff: TRUE", off if and only if it contains "OnOff: FALSE" and not the other, and unknown if and only if neither |
| `Relay.AcceptedMeaning` | src/operations.rs:298-309 | a change is accepted if and only if the command succeeded and that text contains "SUCCESS" |
| `Relay.LowerMeaning` | src/operations.rs:266-269 | the device is found if and only if it is listed somewhere in the neighbors, whatever the case of its ASCII letters there |
| `Relay.QueryMeaning` | src/operations.rs:226-278 | by the texts of the answers: which commands a query issues, exactly when it succeeds and what it then reports, exactly when the identity is verified, and which error it ends with otherwise |
| `Relay.QueryFollows` | src/operations.rs:226-278 | a query never changes the relay; a state it reports is what a successful read said; an identity it calls verified was confirmed |
| `Relay.ChangeNeedsIdentity` | src/operations.rs:280-297 | whatever the backend answers, a relay change is issued at most once, only to the requested state, and only after the identity was confirmed in the same call |
| `Relay.OkMeansSwitched` | src/operations.rs:293-319 | success means that the change's answer says SUCCESS and that the text of the last read says the requested state |
| `Relay.SwitchMeaning` | src/operations.rs:280-320 | how every relay change ends, by the causes that its own commands show: the first query's error, a mismatch, the change's error or refusal, the last query's error, an unverified state, or success |
| `Relay.SwitchStable` | src/operations.rs:280-320 | the outcome of a change depends on its own commands only, not on later ones |
| `Relay.SwitchGrows` | src/operations.rs:280-320 | answering the command that is due never changes which commands were issued before it, so a relay change can be run one command at a time |
| `Relay.VerifyingReadIdentifies` | src/operations.rs:260-277 | for every log, a successful change reports its device as identified if and only if the profile names none, or its last command is a list of neighbors that contains it |
| `Relay.FinalReadMayBeUnidentified` | src/operations.rs:310-319 | a concrete run in which a change succeeds although its verifying read did not find the device |
| `Relay.CycleNeedsIdentity` | src/operations.rs:688-709 | in a whole power cycle, whatever the answers, every relay change follows an identity confirmation of its own, with no other change in between |
| `Relay.OkCycleWentOffAndOn` | src/operations.rs:688-709 | a successful power cycle was accepted and read off, then accepted and read on, and ends on |
| `Relay.VerifiedOffIsRestored` | src/operations.rs:689-707 | after a verified off the log shows an attempt to switch on, and exactly if that fails a second one; each attempt queries the relay and issues the change if that confirms the identity, and never issues an off; the first attempt decides the result |
| `Relay.RestorationNeedsVerifiedOff` | src/operations.rs:689-693 | for every log, any command follows those that switch off if and only if the identity was confirmed, the off command accepted, and the verifying read succeeded and said off |
| `Relay.FailedOffCanStayOff` | src/operations.rs:293-297 | a concrete run in which the off command is issued and times out, and the cycle ends without trying to switch on |
| `Relay.AcceptedOffCanStayOff` | src/operations.rs:689 | a concrete run in which the relay accepted off and the cycle ends without trying to switch on |
| `CommandFraming.ValidateOneLine` | src/policy.rs:3-15 | accepted if and only if nonempty and free of control characters |
| `CommandFraming.OneLineMeaning` | src/policy.rs:3-7 | by character codes: nonempty, and every character prints or is a space |
| `CommandFraming.WireIsFrame` | src/operations.rs:848-853 | what is sent for an accepted command has one carriage return, at its end, and no line feed |
| `CommandFraming.WireIsShellLine` | src/operations.rs:849-850 | what is sent for a Linux command is the command and then a printf of the marker's format, in quotes that nothing in it ends, with $? as its argument |
| `CommandFraming.ShellReports` | src/operations.rs:849-850 | what printf prints for the format that was sent, given the command's exit status, is the report that the completion lemmas assume |
| `CommandFraming.FramesSplitUniquely` | src/operations.rs:848-854 | a stream of such frames splits into them in one way only |
| `CommandFraming.MarkerPlaces` | src/operations.rs:848-853 | after a command without the marker, the marker occurs in the echo's format string or wholly after the echo, never straddling |
| `CommandFraming.EchoIsNotSuccess` | src/operations.rs:848-872 | the echo never contains the success report, nor a part that what follows could complete |
| `CommandFraming.VerdictAfterEcho` | src/operations.rs:872-886 | with the echo in the output, the verdict is Ok if and only if the board reported success after it |
| `CommandFraming.CompletionMeaning` | src/operations.rs:849-872 | a finished command's report reads as success if and only if its status, printed in decimal, is 0 |
| `CommandFraming.DecimalValue` | src/operations.rs:850 | reading the decimal status back gives the status |
| `CommandFraming.CompletionVerdict` | src/operations.rs:844-887 | end to end: a command that ran to completion is Ok if and only if it exited with 0 |
| `CommandFraming.UnfinishedCommandReportsNonzeroExit` | src/operations.rs:872-879 | with the echo but no completion in the output, a nonzero exit is reported |
| `CommandFraming.MissingMarkerReported` | src/operations.rs:872-885 | a missing marker is reported if and only if the output contains the marker nowhere, echo included |
| `Operations.SendAndWait` | src/operations.rs:774-777 | the cursor is read before the message is sent; success means that the whole message went out and the state was observed after that cursor; a port failure, or a timeout at the first look after its time was over, are the only errors |
| `Operations.EvidenceIsOrdered` | src/operations.rs:784-832 | the countdown and the prompt that decided the two waits are occurrences of the profile's uboot_countdown and uboot_prompt, in order around the operation's own cursors: start cursor <= countdown start < countdown end <= prompt cursor <= prompt start, all of it newer than the operation's beginning, whatever arrived between the polls |
| `Operations.IntoUboot` | src/operations.rs:782-834 | success leaves that evidence around the two cursors that the operation read, each before the message it precedes, and exactly the command and the interrupt on the wire; nothing beyond the command is ever written unless a countdown lies wholly between the two cursors; it fails only with the port, or when the first wait lasted the given timeout or the second ten seconds, and no longer than to the next look |
| `Operations.ShutdownFollowsShell` | src/operations.rs:719-750 | if a shell is observed at one moment and a shutdown at a later one, the deciding occurrence of the profile's shutdown starts after the deciding occurrence of linux_shell, and was incomplete when the shell was seen, despite sliding windows, eviction, marks and ties |
| `Operations.SendShutdown` | src/operations.rs:740-744 | sync is written, then at least a second passes, then the configured command is written |
| `Operations.ShutDownLinux` | src/operations.rs:719-750 | success means that a shell was observed at the start, both writes went out with the pause between them, and the deciding shutdown follows the deciding shell; nothing is written without a shell or a configured command; each error has its exact cause |
| `Operations.GracefulPowerOff` | src/operations.rs:711-755 | without confirmation nothing happens at all; a shell that was not observed is reported, exactly then; no power command is issued unless, in the history at the moment of the call, the deciding shutdown follows the shell that met the precondition; then it is one verified switch-off, whose outcome is the result |
| `Operations.PowerCycle` | src/operations.rs:680-709 | ConfirmationRequired if and only if not confirmed, and then nothing changes; otherwise the log grows by exactly one power cycle; every command that switches on begins at least the off time after every command that switched off has ended; success began a new generation |
| `Operations.RestorePower` | src/operations.rs:693-707 | one attempt to switch on, and exactly if it fails a second; the first decides the result; nothing switches off |
| `Operations.ConsoleCommand` | src/operations.rs:836-892 | CommandDenied if and only if the command is invalid, and then nothing happens; a judged command was written whole, its prompt was observed in output after its start, and the verdict is on that output alone; otherwise the port failed, or the prompt was still missing after the timeout |
| `PowerOnUboot.WorkerStep` | src/operations.rs:546-604 | every step keeps the relation between worker and main thread: joined at most once, joined before the end, a failed worker leads only to its own error |
| `PowerOnUboot.SightingStep` | src/operations.rs:541-599 | every step keeps what was seen, from which cursor, and in which order |
| `PowerOnUboot.RelayStep` | src/operations.rs:534-547 | every step keeps the power commands in shape: those of one query that did not read the relay on, then those of the worker's one relay change, whose result is the worker's |
| `PowerOnUboot.TimingStep` | src/operations.rs:564-599 | every step keeps the waits' deadlines and the causes of the boot side's errors |
| `PowerOnUboot.OkMeansVerifiedPrompt` | src/operations.rs:534-607 | in every interleaving, success means that the relay was not read on at first, that the worker then told it to go on after confirming its identity and last read it on, and that a prompt was matched |
| `PowerOnUboot.WorkerErrorWins` | src/operations.rs:548-606 | a spawned worker ran one whole relay change or panicked; if it failed or panicked, that error is the result, whatever the boot side did |
| `PowerOnUboot.RefusalIsExplained` | src/operations.rs:534-540 | an operation that ended without a worker has its first query's error, or PowerStateUnverified and then the text of that query's read says on |
| `PowerOnUboot.NotOnGoesOn` | src/operations.rs:534-540 | the operation goes on to switch the relay if and only if its first query succeeds and its text does not say on |
| `PowerOnUboot.BootErrorsAreExplained` | src/operations.rs:564-606 | with a verified relay it fails only because the first wait lasted the operation's timeout, the second ten seconds, or the port failed while the answer was sent |
| `PowerOnUboot.JoinedOnceBeforeReturn` | src/operations.rs:600-604 | the worker is joined exactly once, before the operation returns |
| `PowerOnUboot.InterruptingEvidence` | src/operations.rs:564-605 | a success that saw a countdown has written exactly the interrupt and reported it, and its deciding evidence lies in order around the two cursors it read, all newer than the operation's start |
| `PowerOnUboot.PromptPathNeverInterrupts` | src/operations.rs:572-588 | if a prompt was seen first, no interrupt is ever written or reported; a success has written exactly Enter and reported it, and its deciding prompt lies wholly after the cursor read before Enter |
| `PowerOnUboot.NeverStuck` | src/operations.rs:546-608 | the main thread can always go on, except that it waits at the end for a worker that still runs |
| `PowerOnUboot.PollsDecide` | src/operations.rs:564-599 | a poll ends its wait exactly when it sees what the wait is for, gives up exactly when the wait's time is over, and otherwise goes on |
| `PowerOnUboot.WorkerNeverStuck` | src/operations.rs:280-320 | a running worker can always issue its next power command, whatever the answer will be, or return with its result |
| `Lease.StepKeepsInv` | src/lease.rs:28-62 | every step of every thread keeps the lease's invariant |
| `Lease.NoDoubleGrant` | src/lease.rs:28-52 | at most one guard lives, and the owner field is its owner |
| `Lease.DropAlwaysFrees` | src/lease.rs:55-63 | the comparison in a drop always succeeds, so every drop frees the lease |
| `Lease.BusyMeansHeld` | src/lease.rs:31-43 | BoardBusy is told only by a check at or after the deadline that found another thread's live guard, whose operation it names |
| `Lease.NoLostWakeUp` | src/lease.rs:44-62 | whenever the lease is free with threads blocked, some waiter is awake, and its next check takes the lease |
| `Lease.DeadlineEndsWaiting` | src/lease.rs:31-51 | a check at or after the deadline gets the lease or BoardBusy |
| `Lease.CallKeepsItsWord` | src/lease.rs:28-52 | over every run after a call: it is refused only once the timeout given has passed since the call, and a guard it gets is its own |
| `Lease.BargingIsPossible` | src/lease.rs:28-52 | whenever a waiter has been woken, a newcomer can take the lease first and send it back to sleep |
| `ControlPlane.StepKeepsInv` | src/operations.rs:475-513 | every step of every request keeps lease, workers and wire consistent |
| `ControlPlane.WritesAreSerialized` | src/operations.rs:475-513 | without probes, the UART log is one whole block for each grant of the lease, in the order of the grants, with single bytes for console keys |
| `ControlPlane.RelayChangesUnderLease` | src/operations.rs:546-604 | every relay change, the power-on worker's included, happens while its own operation alone holds the lease |
| `ControlPlane.NoOrphanedWorker` | src/operations.rs:600-604 | a worker that is not joined has its operation's guard alive |
| `ControlPlane.ProbesInterleave` | src/operations.rs:921-923 | from any state in which an operation may write, a probe can come between two of its writes |
| `Console.ConsoleClient.Read` | src/console.rs:622-715 | the keystroke loop does what `Typed` says, keystroke by keystroke |
| `Console.ConsoleServer.Feed` | src/console.rs:387-414 | the byte parser does what `Parsed` says |
| `Console.ConsoleServer.Serve` | src/console.rs:379-414 | how the stream is cut into reads makes no difference |
| `Console.MessageParsed` | src/console.rs:387-408 | after any one-line message the server is outside of commands again |
| `ConsoleStream.TrimMeaning` | src/console.rs:666 | trimming takes away white space at both ends, all of it, and nothing else |
| `ConsoleStream.TokensParsed` | src/console.rs:376-414 | whoever sends such a stream, the server ends outside of commands and in the mode last set |
| `ConsoleStream.StreamParsed` | src/console.rs:376-414 | every stream of bytes is UART bytes, whole messages and at most one unfinished message, and the server's events are their meanings in order |
| `Console.RemoteCommandTravels` | src/console.rs:492-504 | a command that the client passes on arrives unchanged and is not taken for a mode change |
| `Console.RemoteCommandIsKnown` | src/console.rs:451-486 | for each command that the client passes on, the server runs the operation that the help text promises for it |
| `ConsoleStream.SentenceSplits` | src/console.rs:452 | a command line is taken apart into exactly its words, however they are spaced |
| `Console.NeverUnknown` | src/console.rs:684-688 | whatever is typed, every command that the client sends gets its promised operation and is never answered as unknown |
| `Console.RecoversWithoutNul` | src/console.rs:376-414 | if no NUL was typed in UART mode, the server recovers exactly the UART bytes, mode changes and commands that were meant, in order, and ends outside of commands in the client's mode |
| `Console.ServerUnderstandsClient` | src/console.rs:376-414 | for every sequence of keystrokes, the server recovers what the client's loop meant if and only if no NUL was typed in UART mode |
| `Keystrokes.WhitelistIs` | src/console.rs:492-504 | the client passes on eight commands and no other |
| `Keystrokes.LineIsBuffered` | src/console.rs:665-709 | the line buffer holds exactly the characters that survive: control keys dropped, each erase cancelling the nearest surviving character before it |
| `Keystrokes.ClientMeansTheKeys` | src/console.rs:622-715 | what the client's loop means is what the keys mean: UART keys unchanged, toggles, and of each line ended by Enter the whitelisted command, up to exit or quit |
| `Keystrokes.KeysReachTheServer` | src/console.rs:376-414 | for every sequence of keystrokes, the server recovers exactly what the keys mean if and only if that includes no NUL for the UART |
| `Demux.Screen.Receive` | src/console.rs:574-620 | the receive thread does what `Taken` says |
| `Demux.TakenJoin` | src/console.rs:579-613 | how the stream is cut into reads makes no difference |
| `Demux.ClientUnderstandsServer` | src/console.rs:574-620 | the client recovers exactly the UART bytes and responses that were sent, in order, if and only if no response holds a NUL and every NUL from the UART is followed by a UART byte other than R, in pairs; then nothing is left over |
| `Demux.NulFreeIsTransparent` | src/console.rs:403 | output without NUL bytes always meets that condition |

## Left out

- UTF-8: text is bytes, patterns and commands have one byte for each character, and lossy decoding is not modelled; in the server's command lines, white space and errors of encoding beyond ASCII differ from the code.
- Confidence values, timestamps, operation ids, action strings and error messages; errors keep their code and phase.
- Integer widths: cursors, generations and times are unbounded.
- `power_on`, `power_on_linux`, `forced_power_off`, `simple_console_operation`, `board_state` and `capture_board_serial`: they combine the modelled waits, writes and relay changes without a new mechanism.
- `parse_identity`, `authorize`, configuration, registry lookups, a serial port that is not open, JSON-RPC, MCP, sockets and terminal handling.
- Poisoned mutexes and panics, except that of the power-on worker.
- Serial.SerialRing.Append: chunks carry no timestamp.
- Lease.NoLostWakeUp: does not promise that a particular waiter ever gets the lease, because the code permits barging.
- Boards.Board.WaitForStatesAfter: finds nothing beyond the first 64 KiB after its cursor, as in the code; completeness is stated for snapshots that are not truncated.
- PowerOnUboot.NeverStuck: is about enabled steps; that the operation ends also needs a scheduler that lets threads run and a worker that returns.
- PowerOnUboot.InterruptingEvidence: other threads append to the history but mark no generations while this operation runs, since whoever marks holds the lease; `Board` lets them mark as well.
- Operations.GracefulPowerOff: what arrives on the console during a power command arrives when it ends.
- ControlPlane.WritesAreSerialized: one call that writes is one step, because it holds the writer's mutex throughout, and each request takes the lease once.
- PowerCommand.RunPowerCommand: that the leader's descendants are gone is the kernel's business; only the signals, and when they are sent, are modelled.
- Console.ConsoleServer.Feed: whether a UART byte is then written or refused because the lease is held is the lease's business; the responses' texts are not modelled.
- CommandFraming.ShellReports: of the shell only this line is modelled, that it runs the command and then printf with the command's exit status for $?.
- Demux.ClientUnderstandsServer: each response is written whole; that the receive thread can write between the parts of one response is not modelled.
