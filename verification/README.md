# xc: the worker pool, host expressions, the inventory and aliases

This project models the parts of the parallel remote shell `xc` in which several pieces of code have to
agree with one another, and proves what they keep.

* **The worker pool** (`Remote`, `Protocol`, `Conservation`, `Delivery`, `Liveness`, `Jam`, `Handover`,
  `Interrupts`, `Interrupted`, `Results`, `Schedule`, `Codes`, `Executer`, `WorkerLoop`, `CmdStream`,
  `CmdExactly`, `CopyStream`, `LineReads`, `EndToEnd`). A feeder
  fills a bounded queue, workers copy and run, all of them send on one bounded channel, a collector loop
  counts, and an interrupt drains the queue and posts stop tokens into one-slot buffers. `Protocol` is the
  transition system; runs are sequences of steps chosen by any scheduler. Its state is the hosts not yet fed,
  the queue, the data channel, for every worker its phase, task, unsent messages and stop buffer, the
  collector's stage and `running`, and a history. Channel capacity (1024 in the program) and pool size are
  parameters. A remote process is any finite script of output rounds with an exit code. `Executer`,
  `WorkerLoop`, `CmdStream` and `CopyStream` hold the loops of the program in the form the program has them,
  each proved against the functions that the theorems about the protocol speak of.
* **Host expressions** (`Parser`, `ParserCompose`, `ParserShape`, `ParserRoundTrip`, `ParserQuirks`, `ParserStart`,
  `ParserErrors`, `ParserImage`). The eight-state parser with its lookahead and its different endings. The compilation of a regular expression is
  a predicate `valid` on its text.
* **The inventory** (`Inventory`, `Groups`, `HostSet`, `HostOrder`, `Backend`, `ConductorHosts`, `Exactness`,
  `TokenOrder`, `LocalFile`, `Exclusion`, `FromText`).
  `build` as mutation of heap objects, the recursive descent into child groups, and the include/exclude
  interpreter of both backends. Map iteration visits keys in any order.
* **Aliases** (`Alias`, `WhiteSpace`, `CommandLines`). The registry kept in three structures, substitution, and the
  mutual recursion of `OneCmd` and `runAlias` under a budget.

`Basics` has sums and concatenations over sequences with their lemmas. Every induction is written out: each lemma
turns Dafny's automatic induction off.

## What the code does that its users might not expect

Where a promise is false of the code, the model keeps the code and a lemma says exactly when the promise holds.

* Tasks drained by an interrupt are never subtracted from `running`, which is the number of unfinished tasks,
  drained ones included (`Delivery.RunningMeans`). A run that drained one can never exit
  (`Delivery.DrainedTasksHang`), and a command interrupted at most once that comes to rest has exited if and only
  if nothing was drained (`Interrupted.OneInterruptExactly`; in general `Interrupted.EndsExactly`).
* The feeder of Parallel and Collapse goes on while an interrupt drains the queue: one interrupt can drop every host
  of the list, however short the queue is (`Interrupts.EverythingDrained`).
* `Distribute` leaves one ExecFinished for every failed copy, in the channel or on its way
  (`Handover.DistributeLeaves`). The next Parallel or Collapse takes it for one of its own and exits before its
  own hosts are done (`Handover.StaleMessagesCount`, `Handover.FailedCopySpoilsNext`); without a failed copy
  it is complete (`Handover.RunscriptShortfall`).
* `Distribute` feeds the queue before it receives. It can deadlock if and only if there are more hosts than
  queue places plus workers (`Jam.NeverStuckExactly`); Parallel and Collapse never can.
* A stop token posted in the window before the busy flag is cleared stops the next task of that worker
  (`Interrupts.TokenOutlivesCommand`, `WorkerLoop.StaleToken`), and a second interrupt in the window blocks the
  handler (`Interrupts.SecondInterruptHangs`).
* Without raise the password is never written and nothing is deleted from the stream, but the command is ended as
  if a password had been wrong, if and only if a chunk of the first four non-empty reads looks like that message
  (`CmdExactly.NoneFailsExactly`, with an input in `CmdExactly.NoneFails`).
* Including a token and then excluding it restores how often each host is listed (`HostSet.IncludeThenExclude`,
  `Exclusion.ConductorThenExclusion`), but not the order (`HostOrder.IncludeThenExcludeMoves`). The order is kept if
  no host of the token was listed (`HostOrder.NoneListed`), for one host if and only if nothing else stands behind
  its first occurrence (`HostOrder.OneHostExactly`), for a list without duplicates if and only if the listed hosts
  of the token stand at its end in the order of the token (`HostOrder.KeptWhenLast`), and in general if and only
  if the list has the form that `HostOrder.TwiceExactly` gives.
* A group needs a name only when a comma or nothing follows the percent sign: an accepted expression has a group
  without a name if and only if a token starts with `%@`, `%#` or `%/` (`ParserQuirks.NamelessExactly`).
* After a regexp no comma is needed (`ParserErrors.NoCommaNeeded`), and a brace or a mark that is the last symbol
  is taken as text where the same symbol before others is an error (`ParserErrors.OpenBrace`,
  `ParserErrors.TagMarkLast`).
* The print of a token parses back to it, with and without a comma behind it, exactly for the well-formed tokens
  (`ParserImage.WellFormedExactly`), and an accepted expression gives no others but groups and host regexps with
  nothing in them and a last token that took a mark or a brace (`ParserImage.TokensWellFormed`).
* `~abc` parses to a host regexp without a pattern; HostList then follows a nil reference exactly when the
  inventory has a host (`ConductorHosts.HostList`, `LocalFile.LocalFile.HostList`).
* `build` follows a nil reference exactly when a host names a group that no record has
  (`Inventory.Conductor.BuildFresh`).
* Defining an alias twice leaves its name in the command list for good: once removed it can be created again
  if and only if it was never redefined (`Alias.CreatableExactly`).
* The recursion budget starts at zero and only the interactive loop sets it, so no alias is expanded while the
  rc file is read (`Alias.StartUp`), although the help text calls the rc file a number of xc commands. An `exit` in
  that file does not end its reading (`Alias.RcGoesOn`).
* A prompt that comes after the fourth read of the output is not answered (`LineReads.LatePrompt`).

## Model

| member | source | states |
|---|---|---|
| `Conservation.StepPotential` | src/remote/worker.go:91-126 | any weighting of tasks, messages and phases changes by the same amount that the step moves in or out, for every step of every goroutine |
| `Conservation.PollOwes` | src/remote/worker.go:107-122 | a turn of a read loop, stopped or not, neither loses nor duplicates the finishing message its task owes |
| `Conservation.StepShaped` | src/remote/worker.go:94-125 | every step keeps the shape of the state: bounded channels, tasks of the command, and a worker whose read loops are over has nothing unsent but a proper tail, which ends in a finishing message or, for Distribute, in the traces of failed copies |
| `Delivery.OneFinishing` | src/remote/worker.go:94-125 | in every reachable state no finishing message is among the unsent ones of a worker while a read loop goes on, and at most one is when its loops are over |
| `Conservation.RunOutstanding` | src/executer/parallel.go:53-100 | over any run, outstanding tasks plus counted messages received stay what they were, for every choice of hosts |
| `Delivery.TasksConserved` | src/executer/parallel.go:35-100 | in every reachable state each task is unfed, queued, held with its finishing message unsent, in the channel, delivered or drained, in exactly one of these |
| `Delivery.RunningMeans` | src/executer/collapse.go:83-97 | `running` is the number of tasks whose finishing message has not been received, drained ones included |
| `Delivery.ExitDelivers` | src/executer/collapse.go:57-102 | at exit nothing was drained or left behind, every host has been reported as often as it was listed, and Parallel and Collapse leave no queued task, unsent output or message |
| `Delivery.DrainedTasksHang` | src/remote/pool.go:37-51 | a run that drained a task never exits, whatever happens afterwards |
| `Interrupted.EndsExactly` | src/remote/pool.go:37-61 | a command that has come to rest has exited if and only if nothing was drained, the handler does not wait for a full stop buffer and Distribute does not wait on its own feed |
| `Interrupted.OneInterruptExactly` | src/executer/parallel.go:53-100 | of an accepted size, without old stop tokens and interrupted at most once, a command at rest has exited if and only if nothing was drained |
| `Delivery.StepTail` | src/remote/worker.go:94-125 | once no worker owes anything only a proper tail follows the last finishing message in the channel |
| `Delivery.HostsInOrder` | src/executer/parallel.go:35-51 | in every run the hosts leave the queue in the order of the list, be it to a worker or drained |
| `Delivery.TakesNext` | src/remote/pool.go:37-51 | a worker that takes a task gets the next host of the list, after those taken and drained |
| `Liveness.StepMeasure` | src/executer/parallel.go:35-100 | every step but an interrupt makes the measure strictly smaller |
| `Liveness.RunLength` | src/executer/parallel.go:35-100 | no run is longer than the initial measure plus a fixed amount for each interrupt |
| `Liveness.TerminalStates` | src/remote/pool.go:37-61 | a state without an enabled step has exited, waits for drained tasks, waits for a full stop buffer, or is a Distribute blocked on its own feed |
| `Liveness.NoDeadlock` | src/executer/parallel.go:35-51 | uninterrupted, a command of an accepted size comes to rest only by exiting |
| `Liveness.ReachesExit` | src/executer/parallel.go:53-100 | every uninterrupted run of an accepted size continues to the exit within the measure |
| `Jam.DistributeJams` | src/executer/distribute.go:22-24 | for more hosts than capacity plus pool a run exists that ends stuck, with copies that print one line in each turn of the read loop |
| `Jam.NeverStuckExactly` | src/executer/distribute.go:19-49 | deadlock freedom holds if and only if the size is accepted: any size for Parallel and Collapse, at most capacity plus pool for Distribute |
| `Handover.RunPairs` | src/remote/worker.go:107-115 | over any Distribute run the failed copies of a host and its ExecFinished messages stay paired |
| `Handover.DistributeLeaves` | src/executer/distribute.go:26-51 | at exit the only messages left or to come are ExecFinished of failed copies, and with those already received as many per host as the host has errors |
| `Handover.CleanDistribute` | src/executer/distribute.go:26-51 | without failed copies a Distribute hands over a quiet pool |
| `Handover.StaleMessagesCount` | src/executer/collapse.go:83-97 | a command started over stale messages exits with exactly as many of its own still missing |
| `Handover.RunscriptShortfall` | src/cli/cli.go:603-641 | Distribute and then Parallel or Collapse over one pool: the second is short by the stale messages of failed copies, and complete without any |
| `Handover.FailedCopySpoilsNext` | src/remote/worker.go:111-115 | one failed copy makes the next command of one host exit before that host is queued |
| `Interrupts.TokensConserved` | src/remote/worker.go:145-162 | tokens present plus posted equal tokens consumed plus buffered, over every run |
| `Interrupts.PollBad` | src/remote/worker.go:145-162 | a turn that finds a token ends the phase with exactly one counted message of nonzero code, about the host of the task |
| `Interrupts.StepCuts` | src/remote/worker.go:145-162 | a consumed token adds exactly one failure and one cut of its host, and no other step adds a cut or takes a failure back |
| `Interrupts.CutsAreErrors` | src/executer/parallel.go:84-98 | at exit a host is among the errors at least as often as a token cut one of its phases |
| `Interrupts.TokenOutlivesCommand` | src/remote/worker.go:154-162 | a command that copies and runs can succeed and leave a token, which stops the copy of the next task of that worker, whatever it copies |
| `Interrupts.SecondInterruptHangs` | src/remote/pool.go:53-59 | a second interrupt in the same window blocks the handler for good |
| `Interrupts.EverythingDrained` | src/executer/parallel.go:35-51 | for every list, pool and queue length there is a run of one interrupt in which Parallel or Collapse drops every host, because the feeder goes on |
| `Results.AllHostsReported` | src/executer/collapse.go:87-96 | at exit Success plus Error is the host list as a multiset, for all three commands, interrupted or not |
| `Results.CutHostsFail` | src/executer/collapse.go:87-100 | every cut host is among the errors as often as it was cut |
| `Results.CollectByHost` | src/executer/collapse.go:57-102 | what the result says about a host is the in-order standard output and last code of the messages about that host alone |
| `Results.CodeByHost` | src/executer/distribute.go:26-39 | the code recorded for a host, by any of the three commands, is that of the last counted message about it |
| `Results.ListedInOrder` | src/executer/parallel.go:84-98 | successes and failures stand in the order of their messages |
| `Schedule.StepStream` | src/remote/worker.go:91-126 | received, in the channel, pending and planned messages of a host, joined in this order, do not change at any step |
| `Schedule.ReceivedTrace` | src/executer/collapse.go:39-102 | in every complete run the collector receives about each host exactly the trace of the task that ran it, in order |
| `Schedule.CollapseReports` | src/executer/collapse.go:57-102 | outputs and codes of every complete run, stated from the tasks alone |
| `Schedule.ScheduleIndependence` | src/executer/collapse.go:39-115 | two complete runs with the same tasks, whatever their schedules, pools and capacities, give the same outputs, codes, successes and failures |
| `Codes.CodesAreHonest` | src/remote/worker.go:91-126 | in any run, interrupted or not, a code recorded for a host is one that a task of this host may report: the status of its process or of its copy, the failed copy, or, if there was a stop, that of a stop |
| `Codes.DistributeReports` | src/executer/distribute.go:19-51 | an undisturbed Distribute over distinct hosts records for every host the exit code of its own copy |
| `Executer.Collector.Receive` | src/executer/collapse.go:60-97 | one message updates the record as the specification absorbs it and ends the loop exactly when it is counted and the count reaches zero |
| `Executer.Collector.Run` | src/executer/collapse.go:57-102 | the loop stops at the message that completes the count and at no other, with the result of everything received so far |
| `Executer.LoopEndsAtExit` | src/executer/parallel.go:91-95 | fed with what the protocol delivered, the loop ends at the last message received and nowhere before |
| `Executer.GroupOutputs` | src/executer/collapse.go:108-114 | the map lists each host that printed something exactly once, under exactly what it printed |
| `Executer.GroupingIsUnique` | src/executer/collapse.go:108-114 | any two groupings of the same outputs have the same keys and the same hosts under each, whatever the map order |
| `Executer.Pool.ForceStopAllTasks` | src/remote/pool.go:37-61 | empties the queue and fills the buffers of exactly the busy workers, up to the end, when it returns how many they were, or up to the first whose buffer is still full, where it hangs |
| `Executer.HandlerIsForceStop` | src/remote/pool.go:37-61 | the handler steps of the protocol, left alone, do the same to queue and workers, and stop where the method returns or hangs |
| `WorkerLoop.TaskWorker.ReadProcess` | src/remote/copy.go:28-84 | the read loop sends the rounds up to the first token, which is consumed, or up to the exit code |
| `WorkerLoop.TaskWorker.RunTask` | src/remote/worker.go:94-125 | one task sends exactly the messages of the protocol's phases, for every initial buffer and every moment at which tokens arrive, and leaves exactly the late token |
| `WorkerLoop.TaskWorker.Run` | src/remote/worker.go:91-126 | the loop over the queue sends the messages of its tasks in order, each under the token its predecessor left |
| `WorkerLoop.CopyingIsLoop` | src/remote/copy.go:28-114 | the phases of the protocol from a copy on are the read loop, its report, and exec unless the copy failed |
| `WorkerLoop.TaskTrace` | src/remote/worker.go:91-126 | a task that nobody stops sends the trace that schedule independence speaks of |
| `WorkerLoop.StaleToken` | src/remote/worker.go:145-152 | a token left by an earlier task ends the first phase of any task at once, with the code of a stop |
| `WorkerLoop.LateTokenStopsNext` | src/remote/worker.go:91-126 | a token that comes when the loops of a task are over ends the next task of the worker, which copies and runs nothing |
| `CmdStream.Cmd` | src/remote/cmd.go:33-141 | forwarded standard output is the text read, in order, less the prompt and the echo; the password has been written exactly when a chunk looked at is a prompt, the deleted chunks are the first such prompt and the first echo after it, the loop is cut at the first failure and otherwise ends at the first stop or the end of both pipes; the code is 0 after a clean end, the status of the process after any other exit, 32500 without a status, and 32501 after a stop or a wrong password; standard error loses only ssh notices; every read is copied to the debug stream and nothing empty is sent |
| `CmdStream.SplitAfterExactly` | src/remote/cmd.go:55 | the chunks of a read are the one sequence that joins to it in which every chunk but the last ends in its only newline and the last has none |
| `CmdStream.ForwardChunks` | src/remote/cmd.go:52-82 | the chunk loop of one read takes exactly the first prompt, the first echo after it and the first failure, and forwards every other chunk in order |
| `CmdStream.ForwardErrors` | src/remote/cmd.go:98-108 | one read of standard error forwards the chunks that are no ssh notices |
| `CmdExactly.CmdDecided` | src/remote/cmd.go:33-141 | from the chunks of the first four non-empty reads before a stop: the password is written if and only if one is a prompt, the command fails if and only if one is a failure, and the deleted prompt, the deleted echo and the text before the cut are those at the first positions |
| `CmdExactly.NoneFailsExactly` | src/remote/cmd.go:57-73 | without raise nothing is written or deleted, and the command fails if and only if some such chunk matches the wrong-password message |
| `CmdExactly.AskedExactly` | src/remote/cmd.go:58-63 | with raise the password is written, once, if and only if some such chunk matches the prompt |
| `CmdExactly.CutMeans` | src/remote/cmd.go:58-73 | a failure is a matching chunk after the prompt, or anywhere without raise, that is not the deleted echo, and the first of them cuts the stream |
| `CmdExactly.NoneFails` | src/remote/cmd.go:69-73 | without raise any single line that matches the wrong-password message fails the command with the code of a stop, and the host shows the authentication failure instead |
| `CmdExactly.PromptAnswered` | src/remote/cmd.go:58-63 | under sudo or su any single line that matches the prompt is deleted and answered with the password |
| `LineReads.PromptAmongLines` | src/remote/cmd.go:52-82 | of several lines in one read the first that matches the prompt is answered and deleted, and the lines before it are forwarded |
| `LineReads.PromptAfterLine` | src/remote/cmd.go:52-82 | a line that is no prompt and then a prompt, in one read: the line alone is forwarded, the prompt alone deleted |
| `LineReads.ForwardedLines` | src/remote/cmd.go:52-82 | of the lines of a read without a failure everything is forwarded but the first prompt and the first echo after it |
| `LineReads.FourReads` | src/remote/cmd.go:28-57 | of a command that keeps printing the chunks of exactly four reads are looked at |
| `LineReads.LatePrompt` | src/remote/cmd.go:54-63 | a prompt in a later read gets no password |
| `LineReads.NoticesOfLines` | src/remote/cmd.go:98-108 | of the lines of a read of standard error exactly those that are no notices are forwarded |
| `LineReads.CmdNotice` | src/remote/cmd.go:98-108 | a line and then an ssh notice in one read of a command: the notice alone is dropped |
| `LineReads.CopyNotice` | src/remote/copy.go:58-72 | the same for a copy |
| `LineReads.DebugLength` | src/remote/cmd.go:49-52 | the debug stream is as long as what both pipes gave |
| `LineReads.DebugOfOutput` | src/remote/cmd.go:49-52 | of a command that is silent on standard error it is the standard output, prompts included |
| `LineReads.DebugOfErrors` | src/remote/cmd.go:94-97 | of one that is silent on standard output it is the standard error, notices included |
| `CopyStream.Copy` | src/remote/copy.go:28-114 | a copy forwards no standard output whatever scp prints, its standard error in order less ssh notices, copies every read to the debug stream, ends at the first stop or the end of both pipes, and returns 0 after a clean end, the status of scp after any other exit, 32500 without a status and 32501 after a stop |
| `EndToEnd.TraceStdout` | src/remote/cmd.go:50-85 | the standard output in the trace of a task is what the read loop forwarded, a successful copy before it adding nothing |
| `EndToEnd.CopyIsQuiet` | src/remote/copy.go:36-52 | what the copy loop forwards is a script without standard output |
| `EndToEnd.CopyDecides` | src/remote/worker.go:107-122 | a task whose copy ends with a status other than 0, or with none, sends what the copy forwarded, CopyFinished with that status and ExecFinished with 32502, and nothing of its command; after a clean copy it sends CopyFinished with 0 and then the command and its code |
| `EndToEnd.FailedCopyShows` | src/executer/collapse.go:57-102 | in every complete run Collapse records 32502 and no output for a host whose copy failed |
| `EndToEnd.ShownOrAbsent` | src/executer/collapse.go:57-63 | in every complete run a host has an entry in the outputs if and only if its process has sent some standard output |
| `EndToEnd.CollapseShows` | src/executer/collapse.go:61-63 | in every complete run Collapse shows for a host its process output less prompt and echo, after a wrong password what came before it and the failure message, and reports 0, the status of the process, 32500 or 32501 according to that end; without raise it shows all of the output if and only if no chunk looked at is a failure |
| `EndToEnd.CollapseGroups` | src/executer/collapse.go:108-114 | the printed groups are the same in every complete run and every map order |
| `Parser.ParseExpression` | src/parser/parser.go:64-309 | the loop with its mutable variables and index skips computes the scan that all parser theorems speak of |
| `ParserCompose.ParseConcat` | src/parser/parser.go:71-227 | if p ends in a comma and parses to ts, then p followed by b parses to ts followed by the tokens of b |
| `ParserCompose.ConcatAccepted` | src/parser/parser.go:71-309 | p followed by b is accepted if and only if b is |
| `ParserShape.TokenShape` | src/parser/parser.go:64-309 | every accepted expression: plain hosts have a name and no filters, no token has tags and a regexp, no tag is empty, at most one token per two symbols |
| `ParserRoundTrip.TokenRoundTrip` | src/parser/parser.go:64-309 | the print of a well-formed token parses to that token alone, with or without a comma after it |
| `ParserRoundTrip.RoundTrip` | src/parser/parser.go:64-309 | the comma-joined print of any list of well-formed tokens parses back to the list |
| `ParserImage.WellFormedExactly` | src/parser/parser.go:64-309 | the tokens whose print parses back to them, with and without a comma behind it, are exactly the well-formed ones |
| `ParserImage.TokensWellFormed` | src/parser/parser.go:64-309 | every token of an accepted expression is well-formed, but for a group or host regexp with nothing in it and a last token that ends in a swallowed mark or brace |
| `ParserImage.PrintedAgain` | src/parser/parser.go:64-309 | without those two exceptions the print of what an accepted expression gives parses to the same |
| `ParserImage.BareTilde` | src/parser/parser.go:219-227 | `~,` gives a host regexp with nothing in it |
| `ParserQuirks.WritableExactly` | src/parser/parser.go:180-206 | some accepted expression carries a regexp text if and only if it compiles and does not end in a backslash |
| `ParserQuirks.TildeWithoutSlashes` | src/parser/parser.go:100-104 | `~abc` is a host regexp without a filter |
| `ParserQuirks.NamelessGroup` | src/parser/parser.go:114-147 | a percent sign where a token starts, in any expression: if it is accepted, a group, without a name if and only if the next symbol is `@`, `#` or `/`; a comma next is an error at its position, nothing next an unexpected end |
| `ParserQuirks.NamelessExactly` | src/parser/parser.go:64-309 | an accepted expression has a group without a name if and only if some token starts with a percent sign followed by one of those symbols |
| `ParserQuirks.NamelessDatacenter` | src/parser/parser.go:114-147 | `%@dc` is a group without a name |
| `ParserQuirks.NamelessTag` | src/parser/parser.go:114-147 | so is `%#t` |
| `ParserQuirks.NamelessUnfiltered` | src/parser/parser.go:114-147 | so is `%@,`, without any filter |
| `ParserQuirks.BraceFirst` | src/parser/parser.go:106-111 | a brace in the first position opens no pattern: the next comma outside later braces ends the host, and what follows parses on its own |
| `ParserQuirks.MarkAtTheEnd` | src/parser/parser.go:239-248 | for every group or workgroup name and every datacenter, a `#` or `/` after it that is the last symbol belongs to the datacenter |
| `ParserQuirks.MarkBeforeComma` | src/parser/parser.go:239-272 | before a comma the same `#` opens an empty tag, an error at the comma, and the same `/` a regexp that never ends |
| `ParserStart.OneSymbol` | src/parser/parser.go:75-113 | what each of the symbols gives as an expression of its own |
| `ParserStart.BadStart` | src/parser/parser.go:106-113 | any symbol outside the list and the marks is refused where an expression starts, at its position, whatever follows |
| `ParserStart.HostSymbols` | src/parser/parser.go:40 | the symbols that start a host are the letters of both cases, the digits, the dot, the dash and the braces |
| `ParserStart.HashStart` | src/parser/parser.go:93-98 | `#` and any text read like `*#` and that text, with error positions one lower, also after a dash |
| `ParserStart.HashTags` | src/parser/parser.go:93-98 | `#t1#t2` is one workgroup token without a name and with exactly these tags, for all well-formed tags |
| `ParserStart.SlashStart` | src/parser/parser.go:100-104 | a slash starts a host regexp just as a tilde does, for every text that follows |
| `ParserStart.DashDash` | src/parser/parser.go:76-79 | a second dash changes nothing |
| `ParserErrors.NestedBrace` | src/parser/parser.go:230-233 | a second brace inside a pattern is an error at its position, whatever follows |
| `ParserErrors.OpenBrace` | src/parser/parser.go:215-237 | a pattern that is not closed is an unexpected end, unless its brace is the last symbol |
| `ParserErrors.MarkWithoutText` | src/parser/parser.go:295-306 | a group or workgroup that ends in a mark is an unexpected end |
| `ParserErrors.TagWithoutText` | src/parser/parser.go:264-285 | an empty tag is an error at the symbol that ends it |
| `ParserErrors.TagMarkLast` | src/parser/parser.go:266-281 | a `#` that is the last symbol belongs to the tag |
| `ParserErrors.OpenRegexp` | src/parser/parser.go:304-306 | a regexp that is not closed is an unexpected end, for every text in it |
| `ParserErrors.InvalidRegexp` | src/parser/parser.go:188-192 | a regexp that does not compile is an error at its closing slash, whatever follows |
| `ParserErrors.NoCommaNeeded` | src/parser/parser.go:195-204 | behind a token with a regexp any text that does not start with a comma is read as further tokens |
| `HostSet.SliceIndex` | src/parser/parser.go:311-318 | the first position of the text, or -1 when it is absent |
| `HostSet.MaybeAddHost` | src/parser/parser.go:50-61 | appends the host, or removes its first occurrence only |
| `HostSet.CountIsLargestNet` | src/parser/parser.go:50-61 | a host is listed as often as the largest excess of includes over excludes in any final part of the sequence, the empty one included |
| `HostSet.EvalKeepsOrder` | src/parser/parser.go:50-61 | the list is an ordered subsequence of the hosts added |
| `HostSet.IncludeThenExclude` | src/cli/help.go:200-202 | appending a token and then its exclusion leaves the multiset unchanged, even if the exclusion names the hosts in another order |
| `HostOrder.TwiceExactly` | src/parser/parser.go:50-61 | the list afterwards is what the exclusion alone would leave of it, then the hosts of the token that were listed; it is unchanged if and only if it had that form |
| `HostOrder.NoneListed` | src/parser/parser.go:50-61 | it is unchanged if no host of the token was listed |
| `HostOrder.KeptWhenLast` | src/parser/parser.go:50-61 | a list without duplicates is unchanged if and only if the hosts of the token that are listed stand together at its end, in the order of the token |
| `HostOrder.OneHostExactly` | src/parser/parser.go:50-61 | for one host it is unchanged if and only if nothing else stands behind its first occurrence |
| `HostOrder.IncludeThenExcludeMoves` | src/parser/parser.go:52-56 | an input at which the order changes, for any two distinct hosts |
| `Exclusion.ListKept` | src/parser/parser.go:50-61 | the same conditions for the lists that the tokens of an expression make |
| `Exclusion.ConductorThenExclusion` | src/conductor/conductor.go:286-405 | HostList of an expression, and of the expression with a well-formed token and its exclusion appended, list every host equally often, whatever orders the maps are visited in |
| `Exclusion.LocalFileThenExclusion` | src/localfile/localfile.go:63-93 | the same for the local file |
| `Exclusion.SameList` | src/conductor/conductor.go:286-405 | two readings of an expression over the same inventory list every host equally often |
| `HostSet.AtLeastNet` | src/cli/help.go:200-202 | in any order of the tokens a host is listed at least includes minus excludes times |
| `HostSet.ExclusionsLast` | src/cli/help.go:200-202 | an order with every exclusion last lists each host exactly max(0, includes - excludes) times, the least of all orders of the same tokens, each with its hosts in any order |
| `Inventory.Conductor.BuildGroup` | src/conductor/conductor.go:208-216 | one group: both indexes, an emptied host list, and the list of its workgroup if that is known |
| `Inventory.Conductor.BuildHost` | src/conductor/conductor.go:218-227 | one host: both indexes, the list of its group, its datacenter, or a nil reference for an unknown group |
| `Inventory.Conductor.LinkDatacenters` | src/conductor/conductor.go:196-200 | every datacenter with a known parent id points to the record under that id, the others keep their parent |
| `Inventory.Conductor.Build` | src/conductor/conductor.go:190-228 | over any store: entries of an earlier load stay unless their key is taken again, lists of loaded groups and workgroups are exactly their members in order, datacenters have the parents that their ids name, and it panics if and only if a host's group id is nowhere in the map |
| `Inventory.Conductor.BuildFresh` | src/conductor/cache.go:30-45 | over a fresh store every index and list is exactly what the raw data says |
| `Inventory.Conductor.Rebuild` | src/conductor/conductor.go:190-228 | building again over the same data changes no map, no host list and no group list |
| `Inventory.IndexExact` | src/conductor/conductor.go:190-228 | an index holds elements of the data under their own keys, and with unique keys all of them |
| `Inventory.IndexLast` | src/conductor/conductor.go:190-228 | under a key stands the last record that has it |
| `Inventory.DanglingExactly` | src/conductor/conductor.go:221-223 | over the raw data the nil reference is exactly a non-empty group id that no group has |
| `Groups.Children` | src/conductor/schema.go:57-72 | the recursive loops terminate on a group without a cycle below it, whatever the rest of the index, and return the direct children followed by what each of them returns |
| `Groups.AllHosts` | src/conductor/schema.go:74-82 | the host lists of the groups below and then of the group itself |
| `Groups.PathsMatch` | src/conductor/schema.go:57-72 | Children lists exactly one entry for every non-empty path of child ids, none missing and none repeated |
| `Groups.ChildrenFirst` | src/conductor/schema.go:57-72 | the direct children come first, in the order of the record |
| `Groups.PathCount` | src/conductor/schema.go:57-82 | a group stands in the list as often as there are paths to it, the empty one included |
| `Groups.PathSet` | src/conductor/schema.go:57-72 | the paths from a group without a cycle below it to any group form a finite set, and its size is how often that group is listed |
| `Groups.RankedExactly` | src/conductor/schema.go:57-72 | ranks that make the recursion from some groups end exist if and only if no path from one of them leads to a group that leads back to itself |
| `ConductorHosts.Accepts` | src/conductor/conductor.go:327-348 | the tests of the host loops accept exactly the hosts that pass datacenter, tags and regexp |
| `ConductorHosts.HostTokenHosts` | src/conductor/conductor.go:300-320 | with a tag filter, unknown hosts are skipped and no known host ever is |
| `ConductorHosts.KnownOnly` | src/conductor/conductor.go:307-318 | with a tag filter a known host counts as often as before and any other host not at all |
| `ConductorHosts.MatchHost` | src/conductor/conductor.go:407-417 | the sorted matches for some order of the map, or a nil reference exactly when there is no pattern and some host |
| `ConductorHosts.WorkGroupHosts` | src/conductor/conductor.go:366-374 | the nested loops list the hosts of the groups of the workgroups in order |
| `ConductorHosts.HostList` | src/conductor/conductor.go:286-405 | for an expression whose own groups have no cycle below them: the parse error, a nil reference exactly for a patternless regexp over a non-empty inventory, or the closed form of what the tokens stand for |
| `Exactness.GroupTokenCount` | src/conductor/conductor.go:322-351 | `%g` with any filters lists each matching host once per path of child ids from g to the host's group, which are finitely many, and no host without a group |
| `Exactness.RanksExactly` | src/conductor/schema.go:57-72 | with unique group ids HostList is defined for an expression if and only if no group that it names leads to a cycle |
| `Exactness.WorkGroupTokenCount` | src/conductor/conductor.go:353-401 | `*` lists exactly the matching hosts whose group belongs to a known workgroup, each once, for every map order |
| `Exactness.NamedWorkGroupTokenCount` | src/conductor/conductor.go:359-401 | `*name` lists a host of the data once if it passes the filters and its group names a workgroup called so, and otherwise not at all |
| `Exactness.UnknownWorkGroup` | src/conductor/conductor.go:359-366 | a name that no workgroup has lists nothing |
| `TokenOrder.GroupTokenList` | src/conductor/conductor.go:322-351 | the list of `%g` in its order, from the raw data: the members of the groups below, in the order of the descent, then those of the group, each in the order of the data |
| `TokenOrder.NamedWorkGroupList` | src/conductor/conductor.go:359-401 | the list of `*name` in its order: the groups of the workgroup in the order of the data, and of each its members in the order of the data |
| `Exactness.RegexpTokenCount` | src/conductor/conductor.go:296-299 | `~/re/` lists every matching name of the index once, for every map order |
| `Exactness.PlainHostUnfiltered` | src/conductor/conductor.go:300-320 | no parsed expression reaches the tag filter of plain hosts |
| `Exactness.PassesByData` | src/conductor/conductor.go:327-348 | in terms of the raw data: a datacenter filter accepts a host if and only if the record that its datacenter id names has that name, and no host without such an id; tags and regexp likewise |
| `LocalFile.LocalFile.MatchHost` | src/localfile/localfile.go:99-111 | the sorted matches over all groups in some order, duplicates kept |
| `LocalFile.LocalFile.HostList` | src/localfile/localfile.go:63-93 | as for the conductor, with group names as hosts, the literal text for empty or unknown groups, and workgroups ignored |
| `LocalFile.MatchOrderIrrelevant` | src/localfile/localfile.go:99-111 | the order of the loop over the map does not show in the result |
| `LocalFile.Deterministic` | src/localfile/localfile.go:63-111 | what a token stands for is a function of the data, whatever order the maps are visited in |
| `LocalFile.MatchCount` | src/localfile/localfile.go:99-111 | a matching host is listed once for every time the groups list it |
| `FromText.FileToken` | src/localfile/localfile.go:63-93 | the print of any well-formed token alone is answered with what the token stands for |
| `FromText.FileGroup` | src/localfile/localfile.go:84-87 | `%g` gives the list of the group as the file has it, and nothing for an unknown name |
| `FromText.FileName` | src/localfile/localfile.go:77-83 | a name gives the list of the group of that name, and itself if there is none or it is empty |
| `FromText.FileFiltersIgnored` | src/localfile/localfile.go:84-87 | the filters of a group change nothing |
| `FromText.FileWorkGroup` | src/localfile/localfile.go:88-89 | `*name` gives nothing |
| `FromText.FileNoPattern` | src/localfile/localfile.go:73-76 | `~name` is a nil reference exactly over a file in which some group has a host |
| `FromText.FileRefuses` | src/localfile/localfile.go:63-67 | an expression that starts with a foreign symbol is answered with the error of the parser |
| `FromText.ConductorName` | src/conductor/conductor.go:300-320 | a name or a brace pattern gives what it expands to, in that order, or itself when it does not expand |
| `FromText.ConductorNoPattern` | src/conductor/conductor.go:296-299 | `~name` is a nil reference exactly over an inventory with hosts |
| `FromText.ConductorUnknownGroup` | src/conductor/conductor.go:322-323 | `%g` gives nothing when no group has the name |
| `FromText.ConductorRefuses` | src/conductor/conductor.go:286-290 | an expression that starts with a foreign symbol is answered with the error of the parser |
| `Alias.RunKeeps` | src/cli/alias.go:14-38 | over any creations and removals handlers are the built-ins, untouched, and the aliases, disjoint, and each built-in is listed once |
| `Alias.Leftovers` | src/cli/alias.go:25-38 | every redefinition of an alias leaves one entry in the command list that no removal takes out |
| `Alias.CreatableExactly` | src/cli/alias.go:25-38 | a name that is no alias can be made one if and only if it is no built-in and was never redefined |
| `Alias.StoredText` | src/cli/alias.go:14-38 | after any operations the text behind a name is that of the last creation that was not refused, and none after a removal |
| `Alias.Exterpolate` | src/cli/alias.go:81-103 | the one-pass loop is: cut the text into pieces, then replace them from the left until one has no text |
| `Alias.SubstituteExactly` | src/cli/alias.go:81-103 | substitution succeeds if and only if every argument the text names is given, and then replaces each piece in order |
| `Alias.WholeLine` | src/cli/alias.go:94-97 | a text with one `#*` becomes the text with the whole line of arguments in its place |
| `Alias.OneArgument` | src/cli/alias.go:84-93 | a text with one `#1` to `#9` becomes the text with that argument in its place, or an error that names it when it is not given |
| `Alias.FailedCall` | src/cli/alias.go:40-59 | a call without the argument its alias asks for runs nothing and costs one of the budget; with `#0` it is an index out of range |
| `Alias.ExpandZero` | src/cli/alias.go:85-91 | `#0` is an index out of range, whatever follows |
| `Alias.ExpandMark` | src/cli/alias.go:84-100 | any other mark, or one at the end, stands for itself |
| `Alias.DefinitionStores` | src/cli/alias.go:61-79 | a line that defines a free name stores exactly the given text under it and changes nothing else; for a name that is not free nothing changes |
| `Alias.RemovalForgets` | src/cli/alias.go:61-71 | a line that names an alias without a text removes it |
| `Alias.OtherLines` | src/cli/cli.go:277-303 | empty lines, unknown commands and the other built-ins change nothing here, but for `exit`, which stops the loop |
| `Alias.WholeLineCalled` | src/cli/cli.go:256-273 | a typed definition with `#*` and then a typed call hand OneCmd the text with the arguments of the call in it, with nine expansions left |
| `Alias.TenAliases` | src/cli/alias.go:40-59 | a typed line runs through a chain of ten aliases and stops at the eleventh |
| `CommandLines.TypedAlias` | src/cli/cli.go:256-303 | the same from the text of the two lines, with the white space of the program |
| `CommandLines.PingExample` | src/cli/help.go:231-234 | `alias ping local ping #*` and then `ping 1.1.1.1` runs `local ping 1.1.1.1` |
| `CommandLines.SplitLine` | src/cli/cli.go:281-296 | a line with padding around it is cut into the command, the text of its arguments, and the arguments |
| `WhiteSpace.WsSplitExactly` | src/cli/completer.go:46-53 | a line is cut at its first white space, all of it, into two parts, or is one part |
| `WhiteSpace.FieldsExactly` | src/cli/cli.go:295 | the arguments are the parts between runs of white space |
| `WhiteSpace.TrimExactly` | src/cli/cli.go:281 | padding is taken from both ends and nowhere else |
| `Alias.LineKeeps` | src/cli/cli.go:277-303 | a line keeps the registry in order and expands at most as many aliases as its budget allows |
| `Alias.SelfAlias` | src/cli/alias.go:40-59 | an alias that calls itself uses up the whole budget and changes nothing else |
| `Alias.TenPerLine` | src/cli/cli.go:256-273 | over any interactive session the registry stays in order and each typed line expands at most ten aliases, whatever the lines before it did; nothing else typed expands any |
| `Alias.NoBudgetNoExpansion` | src/cli/cli.go:147-164 | without a budget no sequence of lines expands an alias |
| `Alias.StartUp` | src/cli/cli.go:142 | reading the rc file at start expands no alias |
| `Alias.RcGoesOn` | src/cli/cli.go:147-164 | an `exit` in the rc file does not end its reading: the other lines run as without it |
| `Alias.InputsMean` | src/cli/cli.go:256-273 | an interrupt at the prompt does nothing, the end of the input stops the loop only when confirmed, and after a stop nothing is read |
| `Alias.Cli.RemoveCommand` | src/cli/completer.go:86-98 | removes one occurrence of the name |
| `Alias.Cli.OneCmd` | src/cli/cli.go:277-303 | dispatches as the specification of a line says, and terminates for every alias table |
| `Alias.Cli.RunAliasCmd` | src/cli/alias.go:40-59 | one unit of the budget, the substituted text, and back to OneCmd |
| `Alias.Cli.CmdLoop` | src/cli/cli.go:256-273 | resets the budget for each typed line until stopped |

## Left out

* Process creation, pipes, wait statuses, temporary files: a process is a finite script of reads and an exit code.
* Regular expressions, the pattern expansion and the sort are functions handed in; of the sort only that it permutes is assumed.
* Host names and expressions are sequences of characters; UTF-8 decoding, the 4096-byte read buffer and 64-bit overflow of counters are not modelled.
* Serial, terminal output, progress bar, logging, prompts, completion and the setter commands.
* Loading, caching and decoding of the inventory and of the configuration; the model starts from decoded records.
* The pool has at least one worker and is quiescent when a command starts, except in `Handover`; `doThreads` enforces the first, the configuration file does not.
* Goroutines interleave at channel operations, busy-flag accesses and turns of the read loops; weaker effects of the unsynchronised busy flag are not modelled.
* Debug copies are sent like any other message; the order of the two copies within one turn of a read loop follows the code.
* The four stores of the cache are fields of one class, and the group and host loops of `build` have a method per iteration.
* The slice that MaybeAddHost edits through its address is an in-out parameter, and the loops over the hosts of a token hand over the accepted names as one list.
* Datacenter trees: the code compares one name only.
* The theorems of `Alias` are about any way of cutting a line, and `CommandLines` is about the one of the program; built-ins other than `exit` and `alias` change nothing that the model holds.
* The number of stopped tasks in the result of an interrupted command, and the newline that Distribute adds to standard error.
- Executer.Pool.ForceStopAllTasks: is the call alone; a worker that empties its buffer while the call waits, and the call then going on, is part of Protocol.
- Schedule.ScheduleIndependence: is for distinct hosts, because two tasks of one host share an entry of the outputs map and their chunks interleave.
- WorkerLoop.TaskWorker.Post: a second token waits for the buffer in Protocol; on its own the worker only sees whether the buffer is full.
- LocalFile.LocalFile.Load: replaces the decoded data as a whole and leaves reading and parsing out.
