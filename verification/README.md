# Blue, modelled and proved

This project models the stateful and algorithmic parts of Blue's command line, agent runner and release
scripts in Dafny 4.11 and proves what they are for. `dafny verify dfyconfig.toml` checks all of it.

| file | what it models |
|---|---|
| `AuditTail.dfy` | `blue audit tail`: polling a growing log with a bounded memory of printed keys |
| `Supervisor.dfy` | the gateway supervisor as a machine over worker exits, signals, failed starts and failed writes, and the loop that follows it |
| `ConfigTree.dfy` | `blue config get/set/unset`: the laws of the tree as a value, and the in-place code on maps shared by reference |
| `ShellQuote.dfy` | `blue exec`: quoting against the POSIX shell's reading of the line (IEEE Std 1003.1-2017, XCU 2.2, 2.3, 2.4 and 2.10.2) |
| `GatewayArgs.dfy` | the flags a supervisor prints for its worker and the dispatcher that reads them |
| `AcpLoop.dfy` | the agent protocol loop: JSON-RPC responses, session table, server-sent events |
| `ReleaseGate.dfy`, `PipelineHistory.dfy`, `Pipeline.dfy` | the final gate of the cutover pipeline, streaks over report history, and chains of whole pipeline runs |
| `RecurringAlerts.dfy` | aggregation of drift alerts over report history |
| `WorkflowRuns.dfy` | fetching workflow runs page by page |
| `Transcript.dfy` | recovering tool calls from audit rows into a benchmark transcript |
| `Percentile.dfy` | the nearest-rank and the interpolating percentile |
| `Text.dfy`, `Sorting.dfy`, `Wrappers.dfy` | trimming, string order, decimal text; stable sorting by a key; missing values and errors |

Code that works step by step is modelled by methods and classes over the same state (`SeenWindow`, `Process`,
`ConfigMap` and `Config`, `Report`, `Runner`). Each is proved against a specification function, and the lemmas
are about that function. Files, processes, clocks, the network and JSON decoding are parameters: what they
answer is universally quantified.

## Where the code does less than one would expect

Each of these is proved with the exact condition, and where useful with a concrete input.

- Follow mode of `audit tail` misses entries when more than a read window arrives between two polls
  (`AuditTail.CompleteIffNothingLost`, and by the arrival rate `AuditTail.CompleteExactlyAtRate`): with the default of
  20 lines a burst of 201 is enough (`AuditTail.BurstIsLost`). It never prints one twice. Entries without an id are told apart by a key that
  does not escape its separator (`AuditTail.KeysIdentify`, `AuditTail.BarsCollide`).
- A failed attempt whose error text is blank but not empty ends as ready (`ReleaseGate.ReadyExactlyWhen`,
  `ReleaseGate.BlankErrorEndsReady`). An exception without text while reading the history lets a ready attempt
  end ready (`Pipeline.SilentFetchFailureEndsReady`).
- Reports fed back as history carry the final verdict, so a gate that asks for two or more green reports and finds only
  reports that such gated runs ended with never opens (`Pipeline.GatedRunsNeverReady`). A report is also written before
  its gate is evaluated (scripts/cutover_candidate_pipeline.py:879). Where a history pattern matches that file the
  current attempt is found twice, and a gate of two opens on one attempt (`Pipeline.OneAttemptOpensAnyGate`).
- A pass rate of zero sorts as if everything had passed (`RecurringAlerts.WorseRateFirstUnlessZero`).
- A notification that cannot be served ends the agent loop, and later requests get no response; and a request to cancel
  that names no session gets none although the loop goes on (`AcpLoop.AllAnsweredExactlyWhen`,
  `AcpLoop.NotificationSilencesRequests`, `AcpLoop.BlankCancelUnanswered`). JSON-RPC 2.0, section 5, asks for a response
  to every request.
- A block of tool results without a tool call is injected into a transcript again (`Transcript.SecondInjection`,
  `Transcript.ResultInjectedTwice`).
- Set then delete does not restore a tree in which an empty section lies on the way
  (`ConfigTree.SetDeleteRestores`, `ConfigTree.EmptySectionLost`). Setting a key to `{}` leaves an empty section
  (`ConfigTree.RunsKeepDense`, `ConfigTree.EmptyValueStays`).
- The worker's dispatcher does not see `gateway` as the command once an override is printed in front of it
  (`GatewayArgs.CommandWord`).
- A first argument such as `FOO=bar` or `if` is printed bare and read as shell syntax
  (`ShellQuote.FirstWordNamesCommand`, `ShellQuote.BareAssignment`).

## Model

| member | source | states |
|---|---|---|
| `AuditTail.SeenWindow.constructor` | server/cmd/blue/audit.go:416-425 | the memory starts empty; a limit of 0 or less becomes 512 |
| `AuditTail.SeenWindow.Mark` | server/cmd/blue/audit.go:427-443 | true exactly when the key is outside the `limit` newest accepted keys; the order list is always those keys, without repetition, and equals the set |
| `AuditTail.Replay` | server/cmd/blue/audit.go:416-443 | every history of marks leaves the accepted keys that an independent recursive definition gives, and never more than `limit` remembered |
| `AuditTail.RememberedDistinct` | server/cmd/blue/audit.go:427-443 | the last `limit` accepted keys of any history are pairwise different, although an evicted key may be accepted again |
| `AuditTail.SortEntries` | server/cmd/blue/audit.go:354-367 | times do not fall, at equal times conversations are in order, and then ids; a rearrangement of the input |
| `AuditTail.LoadRecent` | server/cmd/blue/audit.go:341-352 | whatever order the store answers in, the result is the window of the log as it stands |
| `AuditTail.FilterEntries` | server/cmd/blue/audit.go:380-392 | without a query all entries, with one exactly the matching ones in order |
| `AuditTail.StillRemembered` | server/cmd/blue/audit.go:281-281 | because the memory is as large as the read window, no accepted entry still inside the window has been evicted |
| `AuditTail.MemoryDecides` | server/cmd/blue/audit.go:311-323 | in every poll the memory tells the remembered entries of the window from the new ones |
| `AuditTail.EmitNew` | server/cmd/blue/audit.go:316-323 | marking one window prints exactly its new entries, up to where the sink fails |
| `AuditTail.Poll` | server/cmd/blue/audit.go:306-325 | one poll prints exactly the matching entries that arrived since the last read and are still in the window, and keeps the link between memory and log |
| `AuditTail.MarkAll` | server/cmd/blue/audit.go:288-290 | after the initial read every matching entry of the window is remembered, also those not printed |
| `AuditTail.Open` | server/cmd/blue/audit.go:283-293 | the initial read prints the specified opening and, for follow mode, remembers every matching entry of the window |
| `AuditTail.Follow` | server/cmd/blue/audit.go:306-326 | over all polls the output is the specified one, cut off only by the first failing read or a failing sink |
| `AuditTail.Tail` | server/cmd/blue/audit.go:266-326 | a whole run with or without follow mode prints the specified entries; it fails exactly when the sink or a read that was reached fails |
| `AuditTail.OpeningWritten` | server/cmd/blue/audit.go:328-378 | the first read in numbers: 0 lines or less mean 20; with a query or in follow mode the newest entries read are ten times the lines and at least 200, else just the lines; printed are the newest `lines` of them that match |
| `AuditTail.PollWritten` | server/cmd/blue/audit.go:306-325 | a poll in numbers: it adds what arrived since the read before and is among the newest ten times the lines, and at least 200, as far as it matches |
| `AuditTail.EverythingWritten` | server/cmd/blue/audit.go:266-326 | the unbounded specification in entries: the opening, then all that came later and matches |
| `AuditTail.GoodReadsExact` | server/cmd/blue/audit.go:283-314 | the reads that count are those before the first failure, and only the first one without follow mode |
| `AuditTail.OpeningIsNewest` | server/cmd/blue/audit.go:283-298 | without a query the opening is exactly the newest `lines` entries of the log: the read window never cuts it short |
| `AuditTail.KeysIdentify` | server/cmd/blue/audit.go:445-456 | two entries without an id share a key exactly when all five parts are equal, as long as the parts before the payload hold no bar; `KeysDistinctExactlyWhen` adds entries with an id |
| `AuditTail.KeysDistinctExactlyWhen` | server/cmd/blue/audit.go:445-456 | of entries with or without ids, where no id and no part before the payload holds a bar, all keys differ exactly when no two entries have the same id or, both without one, the same five parts: what a caller can check for the distinct keys that `Tail` needs |
| `AuditTail.BarsCollide` | server/cmd/blue/audit.go:449-455 | two different entries of one instant, in log order, share a key when their parts hold a bar |
| `AuditTail.PrintedIncreasing` | server/cmd/blue/audit.go:266-326 | the printed log positions strictly increase, at any arrival rate |
| `AuditTail.NothingPrintedTwice` | server/cmd/blue/audit.go:266-326 | the printed entries are pairwise different and strictly increasing in the order of the log |
| `AuditTail.CompleteIffNothingLost` | server/cmd/blue/audit.go:266-326 | follow mode prints the last lines of the initial window and then every later matching entry exactly when no matching entry falls out of the window unseen; in particular when at most a window's worth arrives between reads |
| `AuditTail.CompleteExactlyAtRate` | server/cmd/blue/audit.go:306-325 | without a query that is so exactly when at most a window's worth of entries arrives between any two reads |
| `AuditTail.BurstIsLost` | server/cmd/blue/audit.go:376-378 | for any number of lines and no query, what arrives between two reads is printed in full exactly when it is at most ten times the lines or 200, whichever is more |
| `Supervisor.StepKeepsInvariant` | server/cmd/blue/gateway_daemon_unix.go:280-384 | every step of the supervisor and of its environment keeps the invariant over record, workers, files and place |
| `Supervisor.RunKeepsInvariant` | server/cmd/blue/gateway_daemon_unix.go:280-384 | so does every run |
| `Supervisor.OneWorkerAtATime` | server/cmd/blue/gateway_daemon_unix.go:319-383 | every worker but the last was waited for, and a start is possible only when all were |
| `Supervisor.ReturnsClean` | server/cmd/blue/gateway_daemon_unix.go:304-384 | every return after the pid file was written removes it (or the removal itself failed) with each worker waited for or killed; a return before that leaves the pid file alone |
| `Supervisor.NoStartAfterSignal` | server/cmd/blue/gateway_daemon_unix.go:347-383 | after a signal is taken no run starts another worker |
| `Supervisor.CountsFollowEvents` | server/cmd/blue/gateway_daemon_unix.go:319-373 | along every run the restart counter counts the exits taken and the worker list the starts |
| `Supervisor.RecordIsRight` | server/cmd/blue/gateway_daemon_unix.go:319-383 | in every reachable state the child pid is set exactly while running or stopping and is the pid of the last worker; restarts equal exits taken, which is starts minus one while a worker runs and starts while restarting; the record last written to disk, which may be older, also names a child exactly when its status is running or stopping |
| `Supervisor.RecordFollowsEvents` | server/cmd/blue/gateway_daemon_unix.go:319-383 | place, status, error text, exit code and pids in every reachable state are those of the last event that sets each; signals are taken at most as often as they arrive and none is lost while two fit; a run leaves with an error exactly if something failed |
| `Supervisor.StoppedRecord` | server/cmd/blue/gateway_daemon_unix.go:348-381 | a supervisor that was told to stop, also in the pause, leaves as its record: stopped, no child, and the exit code and text of the last worker it waited for |
| `Supervisor.FailedStartRecord` | server/cmd/blue/gateway_daemon_unix.go:322-328 | a worker that cannot be started leaves the status error with the failure's text and no child |
| `Supervisor.FileIsCurrent` | server/cmd/blue/gateway_daemon_unix.go:676-690 | the state file holds the record whenever the last change of it was written, and is the file found at the start if nothing was |
| `Supervisor.StopSeesTheEnd` | server/cmd/blue/gateway_daemon_unix.go:506-516 | what `gateway stop` polls for turns true exactly when the supervisor has returned, and then no worker is left |
| `Supervisor.Process.Enter` | server/cmd/blue/gateway_daemon_unix.go:289-306 | refuses when another supervisor is found, else writes the pid file, as the machine does |
| `Supervisor.Process.StartWorker` | server/cmd/blue/gateway_daemon_unix.go:319-336 | starts a worker or records the failure, as a run of the machine |
| `Supervisor.Process.WriteRunning` | server/cmd/blue/gateway_daemon_unix.go:337-340 | a failed write of the running state kills the worker and leaves |
| `Supervisor.Process.Wait` | server/cmd/blue/gateway_daemon_unix.go:347-373 | takes a signal or an exit, whichever the environment offers |
| `Supervisor.Process.WaitForStop` | server/cmd/blue/gateway_daemon_unix.go:447-455 | waits for the signalled worker and kills it after the timeout |
| `Supervisor.Process.Pause` | server/cmd/blue/gateway_daemon_unix.go:375-382 | ends with the delay or with a signal |
| `Supervisor.Process.Supervise` | server/cmd/blue/gateway_daemon_unix.go:319-383 | the loop follows the machine and stops short only where the environment's script cannot happen |
| `Supervisor.Process.SupervisorMain` | server/cmd/blue/gateway_daemon_unix.go:280-384 | a whole life of the process is a run of the machine, and every run of the machine is followed until it returns |
| `ConfigTree.SplitJoin` | server/cmd/blue/config.go:102-102 | splitting a dotted key loses nothing |
| `ConfigTree.PartsDotFree` | server/cmd/blue/config.go:102-102 | every dot of a key separates: no part holds one |
| `ConfigTree.JoinSplit` | server/cmd/blue/config.go:102-102 | dot-free parts joined and split again come back, so every path has its key |
| `ConfigTree.DottedKey` | server/cmd/blue/config.go:101-130 | on a key `a.b`: set puts the value under `b` in the section `a`, made if need be; get looks there; unset takes it out, and the section too if nothing is left |
| `ConfigTree.GetAfterSet` | server/cmd/blue/config.go:101-130 | set then get finds the value, and below it the value's own content |
| `ConfigTree.GetAfterDelete` | server/cmd/blue/config.go:266-280 | delete then get finds neither the key nor anything below it |
| `ConfigTree.SetTwice` | server/cmd/blue/config.go:118-130 | the second of two sets wins and leaves no trace of the first |
| `ConfigTree.SetWhatIsThere` | server/cmd/blue/config.go:118-130 | setting what is already there changes nothing |
| `ConfigTree.DeleteThenSetBack` | server/cmd/blue/config.go:118-130 | deleting a key and setting back what it held restores the whole tree, also where sections were pruned |
| `ConfigTree.OthersUnchanged` | server/cmd/blue/config.go:118-130 | neither set nor delete changes what a path finds that does not lead through the key or below it |
| `ConfigTree.SetDeleteRestores` | server/cmd/blue/config.go:266-280 | set then delete restores the whole tree exactly when the key is absent and every section existing on the way is a non-empty map |
| `ConfigTree.EmptySectionLost` | server/cmd/blue/config.go:266-280 | a concrete tree whose empty section is gone after a set and a delete below it |
| `ConfigTree.SetKeepsDense` | server/cmd/blue/config.go:118-130 | on a tree without empty sections, setting leaves none exactly when the value is neither an empty map nor holds one |
| `ConfigTree.DeleteKeepsDense` | server/cmd/blue/config.go:266-280 | deleting leaves no empty section where there was none |
| `ConfigTree.RunsKeepDense` | server/cmd/blue/config.go:158-226 | a tree without empty sections has none throughout a run of set and unset commands exactly when every value set is neither an empty map nor holds one |
| `ConfigTree.EmptyValueStays` | server/cmd/blue/config.go:158-190 | setting any key to `{}` leaves an empty section |
| `ConfigTree.GetNestedKey` | server/cmd/blue/config.go:101-116 | on the heap the walk finds what the value tree holds at the path |
| `ConfigTree.OpenSection` | server/cmd/blue/config.go:121-128 | one step of the walk enters the map that is there or puts a new one in its place, without changing what the set arrives at |
| `ConfigTree.SetNestedKey` | server/cmd/blue/config.go:118-130 | on the heap the walk turns the tree into the set tree, reusing the maps on the way and sharing none by accident |
| `ConfigTree.DeleteNestedKey` | server/cmd/blue/config.go:266-280 | on the heap the recursion turns the tree into the deleted tree and prunes emptied sections |
| `ConfigTree.Config.RunGet` | server/cmd/blue/config.go:132-156 | found exactly when the tree has the key; a plain value is that value, a map is the map object that stands for the tree's content at the key |
| `ConfigTree.Config.RunSet` | server/cmd/blue/config.go:158-190 | the new tree is the set tree |
| `ConfigTree.Config.RunUnset` | server/cmd/blue/config.go:192-226 | removes the key when it is found and otherwise changes nothing |
| `ShellQuote.IsSimpleToken` | server/cmd/blue/exec.go:234-246 | true exactly when every character is one of the harmless ones |
| `ShellQuote.BuildCommand` | server/cmd/blue/exec.go:207-216 | the loop builds the quoted arguments with single blanks between them, and nothing for no arguments |
| `ShellQuote.ReadArgument` | server/cmd/blue/exec.go:218-232 | the shell reads one quoted argument back as one word, whatever follows |
| `ShellQuote.SplitsBack` | server/cmd/blue/exec.go:207-246 | for every argument list the shell's tokenizing and quote removal gives back exactly the arguments, including empty ones and ones with quotes, blanks or newlines, with no expansion, operator or comment |
| `ShellQuote.CommandLineInjective` | server/cmd/blue/exec.go:207-246 | different argument lists never give the same command line |
| `ShellQuote.FirstWordNamesCommand` | server/cmd/blue/exec.go:218-246 | the first argument names the command exactly unless it is printed bare and is a reserved word or begins like an assignment |
| `ShellQuote.BareAssignment` | server/cmd/blue/exec.go:239-239 | the exception exists: `FOO=bar` is printed bare |
| `GatewayArgs.GlobalArgs` | server/cmd/blue/gateway_daemon_unix.go:594-621 | the printed words read back as the settings and the overrides as positionals exactly when neither the bind address nor the audit path is itself a global flag, and then whatever words follow |
| `GatewayArgs.WorkerArgs` | server/cmd/blue/gateway_daemon_unix.go:584-587 | the worker reads back the settings, and the overrides and `gateway run` as positionals, exactly under that condition |
| `GatewayArgs.SupervisorArgs` | server/cmd/blue/gateway_daemon_unix.go:589-592 | the background supervisor reads back the settings, and the overrides and `gateway supervise` as positionals, exactly under that condition |
| `GatewayArgs.ParseGlobals` | server/cmd/blue/cli_dispatch.go:13-46 | the index loop reads what a recursive reader of the words defines |
| `GatewayArgs.SwitchesMean` | server/cmd/blue/cli_dispatch.go:17-29 | which switch sets which setting, wherever it stands |
| `GatewayArgs.ValuesMean` | server/cmd/blue/cli_dispatch.go:30-39 | the config file and profile flags take the word behind them and do nothing without one |
| `GatewayArgs.DashesEndFlags` | server/cmd/blue/cli_dispatch.go:40-42 | behind `--` everything is a positional |
| `GatewayArgs.WordsPassThrough` | server/cmd/blue/cli_dispatch.go:13-46 | words come through as positionals, all and in order, exactly when none is a global flag |
| `GatewayArgs.FlagsRead` | server/cmd/blue/cli_dispatch.go:13-46 | reading printed flags restores config file, profile, dev, verbose and colour settings |
| `GatewayArgs.WorkerReadsBack` | server/cmd/blue/gateway_daemon_unix.go:584-621 | the round trip of printer and reader as one statement for both commands, with its exact condition |
| `GatewayArgs.WorkerHas` | server/cmd/blue/gateway_daemon_unix.go:594-621 | what the worker has afterwards, field by field: the five settings, and port, bind address and audit path each behind its own flag |
| `GatewayArgs.CommandWord` | server/cmd/blue/cli_dispatch.go:52-53 | for any overrides, flags included, the first positional is `gateway` exactly when no override is printed |
| `AcpLoop.Runner.MutateSession` | server/cmd/agentcore-runner/main.go:67-84 | changes the one session, creating it first when missing |
| `AcpLoop.Runner.EnsureConversation` | server/cmd/agentcore-runner/main.go:200-237 | a known conversation is reused without a call; otherwise one is made and stored, or the failure reported |
| `AcpLoop.Runner.StreamPrompt` | server/cmd/agentcore-runner/main.go:239-306 | forwards exactly the non-empty deltas of the stream in order, and returns their trimmed concatenation with the last stream id, or why there is none |
| `AcpLoop.EventsStreamed` | server/cmd/agentcore-runner/main.go:261-305 | for a stream of decodable `data:` lines, in any letter case and with any blanks, exactly the non-empty deltas are forwarded in order; the result is their trimmed concatenation with the last non-blank stream id, or the complaint about missing data if the text is blank and no event was the last |
| `AcpLoop.MeaninglessIgnored` | server/cmd/agentcore-runner/main.go:266-282 | a line that does not begin with `data:` once trimmed, or has an empty or undecodable payload, changes nothing wherever it stands |
| `AcpLoop.DoneSucceeds` | server/cmd/agentcore-runner/main.go:274-277 | `data: [DONE]` adds no text and makes a stream that does not break off succeed, an empty one too |
| `AcpLoop.Runner.CancelRemote` | server/cmd/agentcore-runner/main.go:319-342 | asks the server to cancel exactly when conversation and stream are known |
| `AcpLoop.Runner.HandleACPMessage` | server/cmd/agentcore-runner/main.go:399-523 | sessions, output and error of one message are those of the specification |
| `AcpLoop.Runner.RunACP` | server/cmd/agentcore-runner/main.go:356-380 | the loop over the input does what folding the messages does, up to the first one that stops it |
| `AcpLoop.Runner.constructor` | server/cmd/agentcore-runner/main.go:63-65 | the session table starts empty |
| `AcpLoop.ExtractACPPrompt` | server/cmd/agentcore-runner/main.go:525-536 | the non-blank items trimmed, one a line |
| `AcpLoop.PromptTextJoins` | server/cmd/agentcore-runner/main.go:525-536 | the text of a list of items is that of its two parts with a line break between them if both have text; one item gives itself trimmed |
| `AcpLoop.PromptTextTrimmed` | server/cmd/agentcore-runner/main.go:535-535 | the final trim of the prompt never removes anything |
| `AcpLoop.TakeAnswers` | server/cmd/agentcore-runner/main.go:399-523 | a line gets exactly the response it asks for, as the last thing written for it; a notification gets none, and neither does a cancellation without a session |
| `AcpLoop.ResponseWritten` | server/cmd/agentcore-runner/main.go:428-523 | the response to each kind of request, with its result or its error and the error's text |
| `AcpLoop.RecordsWritten` | server/cmd/agentcore-runner/main.go:445-459 | what session/new, session/load and session/cancel do to the session table and to the server, and that the other kinds do nothing |
| `AcpLoop.PromptCalls` | server/cmd/agentcore-runner/main.go:460-492 | the calls and updates of a prompt in order: a conversation is made if none is known, the prompt is streamed to it, the deltas are passed on; without a bridge one update repeats the prompt |
| `AcpLoop.RunAnswers` | server/cmd/agentcore-runner/main.go:356-380 | the response ids are the ids of the requests among the lines reached, in input order, one each, except cancellations that name no session; all requests reached are answered exactly when there is no such cancellation |
| `AcpLoop.StopsExactlyWhen` | server/cmd/agentcore-runner/main.go:414-426 | a line ends the loop exactly when it cannot be decoded or is a notification that names an unknown method, lacks its session or prompts a failing bridge |
| `AcpLoop.AllAnsweredExactlyWhen` | server/cmd/agentcore-runner/main.go:356-523 | every request of the input is answered, in order and once, exactly when none comes after such a line and none is a cancellation that names no session |
| `AcpLoop.NotificationSilencesRequests` | server/cmd/agentcore-runner/main.go:414-426 | whatever the lines and decoders, a request right after a notification of an unknown method gets no response |
| `AcpLoop.BlankCancelUnanswered` | server/cmd/agentcore-runner/main.go:503-507 | whatever the line, a request to cancel without a session gets no response although nothing stops the loop |
| `AcpLoop.RunSound` | server/cmd/agentcore-runner/main.go:200-237 | over every run no session is lost, a conversation once assigned never changes, every prompt and cancellation goes to it, and conversations made equal remote ids gained |
| `AcpLoop.OneConversationEach` | server/cmd/agentcore-runner/main.go:200-342 | from the start of the program any two calls about one session, prompts or cancellations, name the same conversation, and exactly one was made for it |
| `AcpLoop.PromptRecorded` | server/cmd/agentcore-runner/main.go:460-502 | a completed prompt records as its response exactly the text streamed out for its session, trimmed when it came from the bridge; a failed one records nothing of the turn |
| `AcpLoop.OthersUntouched` | server/cmd/agentcore-runner/main.go:428-523 | a message leaves every other session as it was |
| `ReleaseGate.Report.ApplyFinalGateState` | scripts/cutover_candidate_pipeline.py:712-756 | rewrites the report in place to the specified final report |
| `ReleaseGate.AttemptBlocks` | scripts/cutover_candidate_pipeline.py:716-725 | the attempt gives reasons exactly when it was not ready, and one that is not blank exactly then unless its error text is all it has and is blank |
| `ReleaseGate.HistoryBlocks` | scripts/cutover_candidate_pipeline.py:727-734 | the history gives no reason when it does not object, and otherwise exactly one, which is not blank |
| `ReleaseGate.BlockingReasons` | scripts/cutover_candidate_pipeline.py:716-743 | stated on the report's own fields: a ready attempt is blocked by the history alone; otherwise its non-blank readiness reasons block, and only if there are none the error text or the status; the history's objection comes last; trimmed, blanks and repeats dropped |
| `ReleaseGate.FinalFields` | scripts/cutover_candidate_pipeline.py:745-756 | all other fields of the final report: final status, attempt status and verdict, whether the history was looked at, and the inputs unchanged |
| `ReleaseGate.DedupReasons` | scripts/cutover_candidate_pipeline.py:736-743 | the loop with its `seen` set computes the specified list |
| `ReleaseGate.DedupShape` | scripts/cutover_candidate_pipeline.py:736-743 | the reported reasons are exactly the non-blank raw ones trimmed, each once, ordered by first appearance |
| `ReleaseGate.VerdictsAgree` | scripts/cutover_candidate_pipeline.py:745-756 | `ready`, status `ready`, `cutover_ready` and empty blocking reasons are equivalent |
| `ReleaseGate.FinalizedTwice` | scripts/cutover_candidate_pipeline.py:712-756 | applying the gate again changes nothing, although it overwrote `status` and `ready` |
| `ReleaseGate.ReadyExactlyWhen` | scripts/cutover_candidate_pipeline.py:712-756 | a report ends ready exactly when the history does not object and the attempt was ready or failed with a blank error text |
| `ReleaseGate.BlankErrorEndsReady` | scripts/cutover_candidate_pipeline.py:721-741 | a concrete failed attempt that ends ready |
| `PipelineHistory.GroupAttemptsByCandidate` | scripts/cutover_candidate_pipeline_history_report.py:312-318 | keys in order of first appearance, each with exactly its attempts, newest first |
| `PipelineHistory.NewestFirst` | scripts/cutover_candidate_pipeline_history_report.py:308-317 | sorted attempts are newest first, and at one time by falling file name |
| `PipelineHistory.CandidatesInOrder` | scripts/cutover_candidate_pipeline_history_report.py:312-315 | the keys are exactly the candidates of the attempts, each once, in order of first appearance |
| `PipelineHistory.CountConsecutiveGreen` | scripts/cutover_candidate_pipeline_history_report.py:321-328 | the length of the longest all-ready prefix |
| `PipelineHistory.ResolveFocus` | scripts/cutover_candidate_pipeline_history_report.py:331-350 | the asked id, else the first candidate with the asked label, else the newest attempt's; errors when the asked one is missing |
| `PipelineHistory.BuildSummary` | scripts/cutover_candidate_pipeline_history_report.py:408-419 | passes exactly when the focused candidate's required newest reports are all ready, so that asking for a ready latest one adds nothing; fails exactly when there is nothing or the asked candidate is missing |
| `Pipeline.RunPipeline` | scripts/cutover_candidate_pipeline.py:857-918 | a whole run, with the candidate named as in lines 459-463, ends with a specified final report, and exits 0 exactly when the report is ready and the history did not fail |
| `Pipeline.HistoryAsked` | scripts/cutover_candidate_pipeline.py:759-770 | the history is in the report exactly when a streak is required or another option asks for it; an exception is recorded with its text |
| `Pipeline.CompletedReport` | scripts/cutover_candidate_pipeline.py:459-532 | the report of a run that completed its steps: the candidate's id, else its label, else a default; status, verdict and readiness reasons of the attempt |
| `Pipeline.RaisedReport` | scripts/cutover_candidate_pipeline.py:862-874 | the report of a run whose steps raised: an error, not ready, with the exception's text |
| `Pipeline.ReadyRunsAreGreen` | scripts/cutover_candidate_pipeline.py:801-918 | a run that has named its candidate and evaluates the history ends ready exactly when its attempt passes and the required newest reports of that same candidate are all ready; the staged copy of the current attempt is among them and carries the attempt's own verdict |
| `Pipeline.CurrentComesFirst` | scripts/cutover_candidate_pipeline_history_report.py:308-318 | if no other report of the candidate is as new, the streak starts with the current attempt |
| `Pipeline.ExitZeroMeansPassed` | scripts/cutover_candidate_pipeline.py:883-918 | exit code 0 exactly when the attempt passes and the history, if requested, was evaluated and passed |
| `Pipeline.SilentFetchFailureEndsReady` | scripts/cutover_candidate_pipeline.py:884-893 | when looking at the history raises, the report ends ready exactly when the exception has no text and the attempt passes; the exit code is 1 either way |
| `Pipeline.ShortfallReported` | scripts/cutover_candidate_pipeline.py:690-734 | a gate that stays shut reports the run's candidate, the true length of its green streak, which is short of the requirement, and the requirement |
| `Pipeline.FinalReadyMeansAttemptReady` | scripts/cutover_candidate_pipeline.py:712-756 | no run ends ready whose attempt was not, an error text of blanks aside |
| `Pipeline.StreaksAreRealAttempts` | scripts/cutover_candidate_pipeline.py:801-918 | over a sequence of runs, behind a ready run each required report is that of a run of the same candidate whose own attempt passed, and these are pairwise different runs whenever no run supplied two of the reports loaded |
| `Pipeline.DifferentRunsExactlyWhen` | scripts/cutover_candidate_pipeline.py:801-838 | where runs have different times, the runs behind the required reports are pairwise different exactly when these reports carry different times |
| `Pipeline.OneAttemptOpensAnyGate` | scripts/cutover_candidate_pipeline.py:876-885 | otherwise they need not be: with copies of its own report from before the gate, a single ready attempt opens a gate of any size |
| `Pipeline.GatedRunsNeverReady` | scripts/cutover_candidate_pipeline.py:879-911 | if every run asks for two or more green reports and finds only reports that such runs ended with, none ever ends ready |
| `Pipeline.OneReadyIsNoStreak` | scripts/cutover_candidate_pipeline.py:801-812 | the staged copy alone makes a streak of at most one |
| `RecurringAlerts.SelectBreakdownAlertRows` | scripts/execution_gate_history_report.py:146-173 | exactly the rows that need attention, sorted by the code's key |
| `RecurringAlerts.AttentionExactlyWhen` | scripts/execution_gate_history_report.py:154-163 | a row is selected exactly if it has critical regressions, a pass rate below one or new failures, truth values counting as numbers |
| `RecurringAlerts.RowsInOrder` | scripts/execution_gate_history_report.py:165-172 | criticals do not rise, then rates do not fall with zero and missing counting as one, then new failures do not rise, then keys |
| `RecurringAlerts.WorseRateFirstUnlessZero` | scripts/execution_gate_history_report.py:165-172 | among equally critical rows the worse rate comes first exactly unless it is zero and the other is below one; a zero against a rate of one is decided by new failures and key, as if both were one |
| `RecurringAlerts.ZeroRateSortsLast` | scripts/execution_gate_history_report.py:168-168 | two rows for which the worse one comes last |
| `RecurringAlerts.CountedDescribes` | scripts/execution_gate_history_report.py:205-236 | counting one more alert keeps a bucket a true description of all alerts of its key |
| `RecurringAlerts.AlertsFollowAttempts` | scripts/execution_gate_history_report.py:202-204 | the alerts a bucket describes belong one for one and in order to the attempts that alert for its key |
| `RecurringAlerts.CountIs` | scripts/execution_gate_history_report.py:116-121 | what the counting columns count: whole numbers and truth values, nothing else |
| `RecurringAlerts.LatestIsNewest` | scripts/execution_gate_history_report.py:232-236 | with timestamps everywhere the latest fields are those of the newest alerting attempt |
| `RecurringAlerts.CriticalWithinDrift` | scripts/execution_gate_history_report.py:220-226 | critical and new-failure counts never exceed the drift count |
| `RecurringAlerts.RankRows` | scripts/execution_gate_history_report.py:238-247 | sorted, cut to the limit, and nothing dropped ranks before anything kept |
| `RecurringAlerts.SummarizeRecurringAlerts` | scripts/execution_gate_history_report.py:198-247 | each row counts exactly the attempts where its key alerts, holds the minimum of 1.0 and every rate; critical counts do not rise, then drift counts, then the worst rate does not fall; every alerting key has its row or ranks behind all rows of a full list |
| `WorkflowRuns.IterWorkflowRuns` | scripts/budget_gate_artifact_fetcher.py:163-197 | exactly the first `limit` wanted entries of the whole listing, however it is paged; no run has the excluded id, and below the limit every other dictionary entry is there; the loop ends |
| `WorkflowRuns.StopEarly` | scripts/budget_gate_artifact_fetcher.py:190-192 | stopping inside a page loses nothing |
| `Transcript.ExtractUsage` | scripts/pinchbench_blue_runner.py:912-938 | the totals over all assistant entries |
| `Transcript.TotalsAreSums` | scripts/pinchbench_blue_runner.py:912-938 | each total is the sum of its own field over the assistant entries, and the requests are their number |
| `Transcript.JoinParts` | scripts/pinchbench_blue_runner.py:953-960 | the non-empty text parts of one message joined by newlines |
| `Transcript.ExtractLatestAssistantText` | scripts/pinchbench_blue_runner.py:941-961 | the text of the last assistant entry |
| `Transcript.LatestIs` | scripts/pinchbench_blue_runner.py:941-961 | the text is that of the assistant message behind which there is no other |
| `Transcript.TextJoins` | scripts/pinchbench_blue_runner.py:953-960 | the text of two lists of blocks is that of each with a line break between them if both have text |
| `Transcript.LoadToolAuditRows` | scripts/pinchbench_blue_runner.py:594-640 | the first row of every fingerprint over all sources, sorted by time, calls before results, and call id; rows that tie keep the order in which they were read |
| `Transcript.FirstOfEachShape` | scripts/pinchbench_blue_runner.py:620-632 | the kept rows have different fingerprints, represent every row read and were all read |
| `Transcript.FirstIsKept` | scripts/pinchbench_blue_runner.py:629-632 | of rows with one fingerprint the first is kept, and the kept rows stay in order |
| `Transcript.RowsInOrder` | scripts/pinchbench_blue_runner.py:633-639 | merged rows are in order of time, then calls before others, then of call id |
| `Transcript.BuildAuditTranscriptEntries` | scripts/pinchbench_blue_runner.py:783-825 | the loop builds the specified entries |
| `Transcript.EntriesFollowRows` | scripts/pinchbench_blue_runner.py:783-825 | every named call and every result gives one entry, in order, and nothing else does; a made-up id carries the entry's position |
| `Transcript.EntryWritten` | scripts/pinchbench_blue_runner.py:785-824 | what a row turns into, field by field, with the shown and the remembered tool name |
| `Transcript.MadeUpIdsDiffer` | scripts/pinchbench_blue_runner.py:801-801 | made-up call ids never collide with each other |
| `Transcript.AuditEntriesInjected` | scripts/pinchbench_blue_runner.py:783-825 | an injected entry used no tokens and has no text, and an assistant one calls a tool |
| `Transcript.TranscriptHasToolCalls` | scripts/pinchbench_blue_runner.py:446-456 | true exactly when some assistant entry holds a tool call |
| `Transcript.AugmentTranscriptWithAudit` | scripts/pinchbench_blue_runner.py:828-859 | inserts the block right before the last assistant message, or leaves the transcript alone |
| `Transcript.AugmentsExactlyWhen` | scripts/pinchbench_blue_runner.py:834-841 | something is injected exactly when there is a transcript without tool calls and a row that is a named call or a result |
| `Transcript.BlockRemoved` | scripts/pinchbench_blue_runner.py:844-859 | the block stands whole at that place, and removing it restores the transcript |
| `Transcript.InjectionKeepsTotals` | scripts/pinchbench_blue_runner.py:912-938 | every token and cost total stays; the request count rises by exactly the injected assistant entries |
| `Transcript.InjectionKeepsLatestText` | scripts/pinchbench_blue_runner.py:941-961 | the latest assistant text stays, whether or not there was one |
| `Transcript.SecondInjection` | scripts/pinchbench_blue_runner.py:828-859 | a second injection changes nothing exactly when the first changed nothing or brought in a tool call |
| `Transcript.ResultInjectedTwice` | scripts/pinchbench_blue_runner.py:828-859 | a concrete transcript and row for which the block goes in twice |
| `Percentile.NearestRankIsQuantile` | scripts/a11y_quickpaths_report.py:160-165 | at least the given share of the values lies at or below the result and less than that share strictly below |
| `Percentile.InterpolatedBetween` | scripts/bench_feishu_message.py:66-77 | the result lies between its two neighbours, which are values of the list |
| `Percentile.InterpolatedMonotone` | scripts/bench_feishu_message.py:66-77 | a higher percentile is never smaller, also across the values of the list |
| `Percentile.InterpolatedHits` | scripts/bench_feishu_message.py:66-77 | at the percentile i/(n-1) the result is the i-th smallest value |
| `Percentile.InterpolatedAffine` | scripts/bench_feishu_message.py:66-77 | between two such percentiles the result is affine, which fixes it everywhere |
| `Percentile.InterpolatedEnds` | scripts/bench_feishu_message.py:66-77 | the ends of the scale are the minimum and the maximum |
| `Sorting.SortSorts` | server/cmd/blue/audit.go:355-355 | `slices.SortFunc` and Python's `sort` order the elements and keep each as often as it occurred |
| `Sorting.SortStable` | scripts/pinchbench_blue_runner.py:633-639 | Python's `sort` keeps the order of elements with equal keys |
| `Text.TrimTakesBlanks` | server/cmd/blue/audit.go:446-446 | trimming takes away blanks only, and only at the two ends |
| `Text.FirstDifference` | server/cmd/blue/audit.go:362-365 | the first different character decides the order of two strings, a prefix coming first by `PrefixFirst` |
| `Text.NatTextDenotes` | server/cmd/blue/gateway_daemon_unix.go:612-612 | decimal text denotes its number and has no leading zeros |

## Left out

- The audit store: `Recent(n)` is any arrangement of the newest n entries of an append-only log that is strictly
  increasing in the printing order and whose keys differ. The store's own tie-break looks at ids only
  (server/internal/sessionaudit/store.go:1650-1680), so entries of the same instant can leave its window in another order.
- `audit recent`, `audit watch`, the socket protocol and the formatting of entries; the words of a query are one predicate.
- Two supervisors starting at once (the check is not atomic), signals that arrive before the handler is installed,
  half-written pid files, and the failure of the kill call.
- The detached launch, `gateway start`, `status`, the shutdown request and the health query.
- Loading and saving the configuration file and decoding of values.
- ConfigTree.SetNestedKey: a value that shares maps with the tree it is set into is excluded, as the command line
  always passes a freshly decoded value.
- The Windows branches of `blue exec`, aliases, locale-dependent blanks, and arguments with a NUL character.
- The commands behind the dispatcher: only its flag loop and its choice of the first word are modelled.
- HTTP requests of the agent bridge, its headers and timeouts: a create or stream request succeeds with given content or
  fails with a given text. The title of a conversation is not modelled. Write failures on standard output are left out.
- AcpLoop.Runner.HandleACPMessage: concurrency with the A2A server, which shares the session table only in another mode.
- The A2A server, whose check and act on the remote id is not atomic.
- The steps of the cutover pipeline itself, downloads, the file operations of staging and the Markdown reports. The selector history
  report and the other artifact fetchers hold the same loops as the modelled ones.
- Reports in the history that no run of the pipeline wrote, and the order of file names among copies of one report
  beyond their being different names.
- Non-numeric metric values, which the alert report's `float` calls reject with an exception.
- Floating-point rounding: rates, costs and percentiles are exact numbers. Percentiles outside 0 to 1 for interpolation.
- Per-system tallies of the accessibility report and `parse_last_json` of the message benchmark.
- Transcript messages whose content is one string instead of a list, and bare strings inside an assistant's content,
  on which the search for tool calls raises; decoding of tool arguments; normalization inside a row's fingerprint, which
  is a parameter; conversion of stored messages.
- Trimming removes blanks of the Latin-1 range only; other Unicode blanks and case folding are not modelled.
- The a2a and license code, the model conversion script and everything under `web` and `server/internal`.
