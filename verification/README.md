# Verified models of the harness's decision procedures

The harness is a set of small protocols around git, hooks and ledgers: a quote-aware command scanner whose keys
decide which red run a green run supersedes, state machines for a registered study and its blind grading, a push that
may have landed although it failed, a hook dispatcher with a real-time bound, a bytecode cache, a regression
selector, a bounded two-thread capture, one-time approvals, a ledger comparison and an audit merge. This project
models each of them in Dafny and proves what it is there for. `dafny verify dfyconfig.toml` checks the project.

How the models are built:

- Code that changes things step by step is a method with loops, or a class whose methods reassign its fields. Each is
  proved equal to a specification function, and the properties are lemmas about that function. A protocol of several
  processes or threads is a state machine, and its theorems hold for every sequence of its steps.
- The outside world is adversarial. The fates of pushes and reads, the ref's other movers, clocks, reboots, agents'
  transcripts, hook durations (a hook may never end), chunk sizes and process schedules are arbitrary inputs.
- `str.lower`, `fnmatch`, regular expressions, hashes, the compiler, JSON renderings and path operations are function
  parameters, and so is the set of display tools: what is proved holds for every set. A theorem that needs a hash not
  to collide says for which values.

| module | component |
|---|---|
| `ShellScan`, `CommandKey`, `LayerStatus`, `RunLedger` | command scanner, command identity, layer verdicts, run records |
| `GuardedPush` | the guarded push |
| `GraphStudy`, `Packing`, `Grading`, `GradedQueue` | study ledgers, packing of grading capsules, blind grading, and the two joined |
| `Dispatch`, `Bytecode` | hook dispatcher and its bytecode cache |
| `Glob`, `RegressionSelect` | memoised glob and worklist closure |
| `BoundedCapture`, `OneTimeRecords` | two-thread capture, one-time approvals and run records |
| `LedgerDiff`, `InsertedLines` | comparison of ledgers, inserted backlog lines |
| `AuditCarry` | the audit carry |

## What the proofs found

- A study arm on the single route whose node `finish` itself collects can never be finished with a good answer:
  `finish` reads `attempt.json` before `settle_dispatched` writes the end of the interval into it, and then writes the
  old copy back (scripts/graph_v2_study.py:286-309). `GraphStudy.FinishRecords` gives the exact condition under which
  `finish` records an arm; `GraphStudy.EndIsLostInThreeCommands` reaches the loss, and `GraphStudy.LostEndStays` shows
  that it stays, whatever follows, until a pair is voided, a failure is found in the arm or the study is INVALID.
- Appending `|t` appends exactly the segments of `t` if and only if the text before it ends cleanly: in plain text,
  not on a lone backslash, not on a pipe that a further one would turn into `||` (`ShellScan.PipelineOfTail`). Display
  tails keep the command key under that condition.
- An approval is never granted more often than it was created, but the time that is judged may belong to another
  record than the one that is spent. `OneTimeRecords.GrantIsTraced` is exact: they are the same record if and only if
  no step between the process's read and its unlink removed or replaced the entry.
  `OneTimeRecords.OneTimeCanServeTwice` is a schedule in which one time serves two grants, the second spending a
  record whose own time is not written yet.
- A carry that goes through can leave a journal that nobody can read. `carry` appends without looking at the end of
  the journal, which the sibling writers check (skills/task/scripts/itd_unit_log.py:174-175), and writes rows with
  `ensure_ascii=False` while `rows` cuts at every boundary of `str.splitlines`. `AuditCarry.CarriedReadsBack` is the
  exact condition, and every claim about loss, doubling, order and repetition is made under it. A row with a lone
  surrogate stops the carry instead, before anything is written.
- `carry` answers EMPTY without looking at the journal when nothing is pending, so a journal that contradicts itself
  is refused only with a non-empty ledger (`AuditCarry.Files.Carries` states both cases).
- A hook that overruns its own deadline is not always reported: the second pass looks at it only after the waits for
  the rows before it. `Dispatch.OverrunIsExact` is exact: it goes unreported if and only if the hook has ended by the
  start of the second pass or by the end or deadline, whichever is earlier, of a hook started before it.
  `Dispatch.OverrunBehindALongerWait` is an input.
- A reader of the bounded capture that dies of an exception is never visible in the report: every run reports the same
  as the run in which the stream ends where the reader died (`BoundedCapture.DeadReaderIsNotReported`); without
  overflow the report covers both streams to their ends exactly when no reader died
  (`BoundedCapture.ReportWithoutOverflow`).
- Two sources of one stem, like `x.py` and `x.sh`, share a bytecode file. An installation is clean afterwards if and
  only if they are due the same bytecode (`Bytecode.InstalledIsClean`); otherwise every run rewrites the file, and a
  check right after it reports drift.

## Model

| member | source | states |
|---|---|---|
| `ShellScan.InsideQuotes` | hooks/completion_lib.py:782-797 | the scan answers true exactly when the quoting automaton of section 2.2 of POSIX.1-2017 XCU ends the prefix in an open quotation |
| `ShellScan.ShellWords` | hooks/completion_lib.py:666-695 | the words are the text cut at whitespace where the same automaton is in plain text, and its variable `quote` ends as the automaton's state |
| `ShellScan.WordsAreSeparated` | hooks/completion_lib.py:666-695 | the words put back between their gaps are the text; every gap between two words is whitespace in plain text, and no word holds any |
| `ShellScan.SplitPipes` | hooks/completion_lib.py:502-659 | pipe mode cuts exactly at the single pipes where the same automaton is in plain text, and ends with the automaton's quote state |
| `ShellScan.SplitStatements` | hooks/completion_lib.py:502-659 | statement mode, here-documents and here-strings included, terminates with the segments and dropped operators of the specification or with its refusal |
| `ShellScan.SplitTop` | hooks/completion_lib.py:502-659 | both modes of the one loop: segments, dropped operators and the final quote, which an accepted statement split never leaves open |
| `ShellScan.PlainCharacter` | hooks/completion_lib.py:527-653 | a character outside quotes: what refuses, what opens a quotation, which operators end the segment, and otherwise the text that belongs to it |
| `ShellScan.QuotedCharacter` | hooks/completion_lib.py:516-526 | a character inside a quotation: substitution in double quotes refuses, a closing quote closes, an escape in double quotes takes the next character along |
| `ShellScan.HereDocument` | hooks/completion_lib.py:582-651 | a here-document either refuses or belongs to the segment from its opening line to the end of its last body, without a character lost |
| `ShellScan.ScanOpeningLine` | hooks/completion_lib.py:603-618 | an operator is reported exactly when one stands outside quotes and escapes on the opening line |
| `ShellScan.ReadBody` | hooks/completion_lib.py:627-640 | one body is read up to the line that is its delimiter (after leading tabs for the dash form) or to the end of the command |
| `ShellScan.ReadBodies` | hooks/completion_lib.py:624-649 | the bodies of one line are read in order, and an unterminated one is reported |
| `ShellScan.PipelineLossless` | hooks/completion_lib.py:546-557 | from any scanner state, joining the pipe segments gives back the text |
| `ShellScan.JoinedPipelineIsTheCommand` | hooks/completion_lib.py:662-663 | joining the segments of any command with pipes is the command |
| `ShellScan.StatementsLossless` | hooks/completion_lib.py:533-659 | a statement split that is not refused gives back the command when the dropped operators are re-inserted |
| `ShellScan.StopFollowsTheAutomaton` | hooks/completion_lib.py:516-581 | outside here-documents every stop of the statement scan, here-strings included, has the quote state of the automaton |
| `ShellScan.RefusalFollowsTheAutomaton` | hooks/completion_lib.py:514-659 | over a whole run without here-documents the scan refuses exactly when one of its stops does or the automaton ends in an open quotation |
| `ShellScan.RefusedForAnOpenQuote` | hooks/completion_lib.py:655-657 | a command in which no stop refuses is refused exactly for a quote the automaton leaves open |
| `ShellScan.CutsAreExact` | hooks/completion_lib.py:515-659 | an accepted split of a command without here-documents has an operator of the four exactly where the first one in plain text stands after the one before it; no segment holds one, and woven together they are the command |
| `ShellScan.OneWellCut` | hooks/completion_lib.py:515-659 | a command has at most one such split |
| `ShellScan.SegmentsHoldNoOperator` | hooks/completion_lib.py:546-573 | no segment holds `;`, a newline, `&&` or `two pipes` in plain text |
| `ShellScan.RefusalIsExact` | hooks/completion_lib.py:517-658 | a command without here-documents is refused exactly for an open quotation at its end, a substitution in plain text or double quotes, or in plain text an ANSI-C or locale quote, a process substitution or a background `&` |
| `ShellScan.BodyEndIsExact` | hooks/completion_lib.py:627-640 | a here-document body ends with its first line that is its terminator, or with the command |
| `ShellScan.TerminatorIsExact` | hooks/completion_lib.py:624-640 | a terminator is the delimiter word as it is, or for the dash form the word behind the tabs that begin the line |
| `ShellScan.PipelineOfTail` | hooks/completion_lib.py:546-557 | the segments of `c` piped into `t` are those of `c` followed by those of `t` if and only if `c` ends cleanly |
| `ShellScan.ClosedTextEndsClean` | hooks/completion_lib.py:515-557 | text with closed quoting that does not end in a pipe ends cleanly |
| `CommandKey.SegmentHeadToken` | hooks/completion_lib.py:701-719 | the head is the lowered base name of the first word that is no assignment, wrapper, option or operand of an option |
| `CommandKey.DisplaySegment` | hooks/completion_lib.py:722-733 | a segment is a display segment exactly when its head is a display tool and no word is a long option |
| `CommandKey.HeadIsExact` | hooks/completion_lib.py:701-719 | the head is the base name of the first word that is no operand, assignment, wrapper or option, or empty when there is none |
| `CommandKey.DisplayIsExact` | hooks/completion_lib.py:722-733 | a display segment is one whose first command word is a display tool and of whose words only a bare `--` starts with two dashes |
| `CommandKey.BaseNameIsExact` | hooks/completion_lib.py:718 | the base name is what follows the last slash |
| `CommandKey.AssignmentIsExact` | hooks/completion_lib.py:698 | after its first letter an assignment is letters and digits and then `=` |
| `CommandKey.NormalizeCommandKey` | hooks/completion_lib.py:755-779 | the loops compute the key: display tails dropped, trailing redirects outside quotes dropped, ends stripped |
| `CommandKey.KeyIsRead` | hooks/completion_lib.py:755-779 | the key comes from a non-empty beginning of the pipe segments behind which all are display segments and whose last is none unless it is the first, from the stripped join of which redirects were cut that start outside quotes until the next starts inside or there is none, and around which only whitespace and semicolons were taken |
| `CommandKey.OnlyOneKey` | hooks/completion_lib.py:755-779 | no other text comes from a command in that way |
| `CommandKey.SameKeyMeansSameReading` | hooks/completion_lib.py:755-779 | two commands have one key exactly when they come to one text in that way |
| `CommandKey.QuotedRedirectStays` | hooks/completion_lib.py:768-777 | a redirect match inside an open quotation leaves the whole text, but for whitespace and semicolons |
| `CommandKey.KeyStandsInTheCommand` | hooks/completion_lib.py:763-779 | the key stands in the command as it is, behind whitespace only |
| `CommandKey.TailsDropOff` | hooks/completion_lib.py:763-765 | display segments at the end of a list of segments change nothing of what is kept |
| `CommandKey.DisplayTailsKeepTheKey` | hooks/completion_lib.py:755-779 | for every cleanly ending `c` and every `t` of display segments, `c` piped into `t` has the key of `c` |
| `LayerStatus.LayerStatus` | hooks/completion_lib.py:1388-1428 | the verdict is red if the latest live run of some command is red, else green if some is green; the shown row is the last of that outcome in dictionary order |
| `LayerStatus.LatestRows` | hooks/completion_lib.py:1414-1419 | the dictionary holds the last row of every key, its keys in order of first appearance |
| `LayerStatus.LastWorst` | hooks/completion_lib.py:1419-1428 | the lists of reds and greens yield that verdict and the last row of it in dictionary order |
| `LayerStatus.VerdictIsExact` | hooks/completion_lib.py:1388-1428 | the layer is red exactly when the last counted run of some command is red, else green exactly when one is green, in terms of the signals |
| `LayerStatus.CommandsInOrder` | hooks/completion_lib.py:1414-1419 | the keys come in the order of their first rows, each once |
| `LayerStatus.LastWithIsLast` | hooks/completion_lib.py:1420-1428 | the row shown is that of the last key with this outcome |
| `LayerStatus.LatestConcat` | hooks/completion_lib.py:1414-1418 | later rows override earlier ones key by key |
| `LayerStatus.Superseded` | hooks/completion_lib.py:1414-1418 | a row that a later row of its command follows leaves no trace |
| `LayerStatus.RerunSupersedes` | hooks/completion_lib.py:1388-1428 | a later live run of the same command removes every effect of an earlier run on the verdict |
| `LayerStatus.GreenUnderAnotherTailSupersedes` | hooks/completion_lib.py:1388-1428 | a later green of a command under another display tail makes the layer be judged as if the red had never been recorded |
| `LayerStatus.GreenIsBacked` | hooks/completion_lib.py:1414-1426 | the row behind a key is a recorded row of that command that no later run replaced |
| `RunLedger.RunStore.MatchRunRecord` | hooks/completion_lib.py:930-980 | every shown record is consumed, and the answer is the run exactly when one id is shown, its record is valid, and the other lines are accounted for |
| `RunLedger.Owns` | hooks/completion_lib.py:966-979 | the budget loop accepts exactly when the other lines minus the recorded ones, as multisets, are empty or one echo of the recorded exit code |
| `RunLedger.SettlesWhenAccounted` | hooks/completion_lib.py:969-979 | the line-by-line accounting equals the multiset condition from every intermediate state |
| `RunLedger.AttributionIsOrderFree` | hooks/completion_lib.py:930-980 | permuting the output never changes the attribution |
| `RunLedger.AttributionIsExact` | hooks/completion_lib.py:930-980 | an output is attributed to a run exactly when one of its lines names it, the record under that id reads as one of that id, and beyond what the run printed there is nothing or one echo of its exit code |
| `RunLedger.CountedSignals` | hooks/completion_lib.py:996-1022 | the result is the subsequence of the signals that are not dropped |
| `RunLedger.KeptPositions` | hooks/completion_lib.py:1014-1021 | a signal is kept exactly when it is not dropped |
| `RunLedger.KeptInOrder` | hooks/completion_lib.py:1014-1021 | the kept signals keep their order |
| `RunLedger.LatestRecords` | hooks/completion_lib.py:1000-1013 | the first loop records the first showing of every run id and whether the last record of each invocation is green |
| `RunLedger.DropIsExact` | hooks/completion_lib.py:983-1021 | a signal is dropped exactly when it is the first to show its record, a failure with an exit code other than 0, and the last first-shown record of the same script, arguments, mode, interpreter and layer is a pass with code 0 at the current HEAD from the project root |
| `RunLedger.DroppedRedHasLaterGreen` | hooks/completion_lib.py:1003-1021 | every dropped signal is a red with a non-zero exit, followed by a kept pass of the same invocation in the same layer, at the current HEAD, from the project root |
| `RunLedger.DroppedRedLeavesLiveEvidence` | hooks/completion_lib.py:1003-1021 | a layer that loses a red still counts a live pass at the current HEAD |
| `GuardedPush.RetryDelay` | scripts/itd.py:282-287 | doubling from 15 seconds under the cap is 15 seconds once and 30 ever after |
| `GuardedPush.AttemptTimeout` | scripts/itd.py:1139-1146 | a timeout exists exactly when more than ten seconds are left; it is at most 120 seconds and ends ten seconds before the deadline |
| `GuardedPush.PushOnce` | scripts/itd.py:1219-1230 | an attempted push is the step that is due, with the smaller of 120 seconds and the time before the grace, or nothing exactly when the grace is reached |
| `GuardedPush.ReadOnce` | scripts/itd.py:1161-1178 | a read is the step that is due, with such a timeout, or nothing exactly when the grace is reached |
| `GuardedPush.PauseOnce` | scripts/itd.py:1184-1192 | a pause of the delay or of what is left before the grace, or nothing exactly when the grace is reached |
| `GuardedPush.Reconcile` | scripts/itd.py:1149-1195 | at most five reads, each next one only after a transport failure and a pause; a head that was read last, or the answer that ends the call |
| `GuardedPush.GuardedPush` | scripts/itd.py:1198-1257 | for every sequence of outcomes: every step is the one its predecessors call for and the answer is the one due when no further step is; at most two pushes and ten reads |
| `GuardedPush.BeginsWithAPush` | scripts/itd.py:1217-1226 | a call begins with a push, or ends with an expired budget when the grace is reached before |
| `GuardedPush.LostPushIsRead` | scripts/itd.py:1227-1241 | a push lost on the transport is followed at once by a read of the ref, or by exhaustion exactly when the grace is reached |
| `GuardedPush.ReadOfLocalReturns` | scripts/itd.py:1242-1243 | a read of the local head ends the call normally |
| `GuardedPush.ReadOfExpectedIsPushedAgain` | scripts/itd.py:1244-1257 | a read of the expected head after the first push is followed by a pause of fifteen seconds and a second push, each unless the grace is reached; after the second push it is exhaustion |
| `GuardedPush.LostReadIsRepeated` | scripts/itd.py:1161-1195 | a lost read is followed by a pause of fifteen seconds, then thirty, and another read, unless the grace is reached or it was the fifth since the push |
| `GuardedPush.OtherContactsEnd` | scripts/itd.py:1219-1247 | an acknowledged push, a foreign head and any other error end the call with a return, a refusal and that error |
| `GuardedPush.ExhaustedIsExact` | scripts/itd.py:1149-1257 | the transport is given up exactly when the grace is reached with the outcome open, five reads of one round are lost, or the second push is followed by a read of the expected head |
| `GuardedPush.BudgetExpiredIsExact` | scripts/itd.py:1139-1146 | the budget is reported expired exactly when a push was due and the grace was reached |
| `GuardedPush.ReturnIsExact` | scripts/itd.py:1226-1243 | a call returns normally exactly when its last contact confirms the local head |
| `GuardedPush.EveryEventIsAllowed` | scripts/itd.py:1149-1257 | no push, read or pause starts with ten seconds or less left, and a push after the first contact comes right after an exact read of the expected head |
| `GuardedPush.DeadlineKept` | scripts/itd.py:1139-1257 | when every child ends within its timeout plus ten seconds, and no pause overshoots by more than ten, the call ends by its deadline |
| `GuardedPush.LandsAtMostOnce` | scripts/itd.py:1231-1247 | without foreign moves, a push that is followed by another push had not landed |
| `GuardedPush.ReturnMeansTheRefIsLocal` | scripts/itd.py:1219-1243 | without foreign moves a normal return leaves the ref at the local head |
| `GraphStudy.Ledgers.Guard` | scripts/graph_v2_study.py:81-97 | a retained violation, a foreign boot or changed evidence makes or keeps the study INVALID; changed files refuse |
| `GraphStudy.Ledgers.Initialize` | scripts/graph_v2_study.py:142-166 | the frozen state with the schedule queued and no runs, only once and only with pinned sources |
| `GraphStudy.Ledgers.Prepare` | scripts/graph_v2_study.py:174-195 | only the head of the queue becomes active, with a fresh attempt at the current clock |
| `GraphStudy.Ledgers.Collect` | scripts/graph_v2_study.py:222-261 | the first good collection of a single arm writes the end of its interval; a repeat changes nothing |
| `GraphStudy.Ledgers.Finish` | scripts/graph_v2_study.py:285-316 | the settled active arm is recorded and moves from the queue to the completed list, or the study becomes INVALID |
| `GraphStudy.Ledgers.VoidPair` | scripts/graph_v2_study.py:318-354 | the current pair is withdrawn everywhere and its replacements are queued first; a third pair or a replacement makes the study INVALID |
| `GraphStudy.ReplaceConserves` | scripts/graph_v2_study.py:343-352 | withdrawing a pair and queueing its replacements keeps every slot exactly once |
| `GraphStudy.StepKeeps` | scripts/graph_v2_study.py:174-354 | every command, clock tick, reboot and violation keeps the invariant |
| `GraphStudy.EveryRunIsSound` | scripts/graph_v2_study.py:164-354 | over every run, unless INVALID: each scheduled slot once among completed and queue, as plain label or replacement; the active label heads the queue; run ids equal the completed labels on disjoint increasing intervals of one boot; at most two pairs replaced, none twice; COLLECTED exactly with an empty queue |
| `GraphStudy.InvalidIsForever` | scripts/graph_v2_study.py:52-62 | INVALID is never left |
| `GraphStudy.CollectedIsComplete` | scripts/graph_v2_study.py:356-396 | a study is COLLECTED exactly when what `verify` asks of the ledgers holds: nothing active or queued, every arm recorded once in completion order on ordered intervals |
| `GraphStudy.FinishRecords` | scripts/graph_v2_study.py:285-316 | exactly when `finish` records the active arm, in terms of the attempt it read |
| `GraphStudy.RefusedIsExact` | scripts/graph_v2_study.py:81-97 | when a command goes on, when it is refused and when the study becomes INVALID, in terms of the state and the checks; nothing else changes |
| `GraphStudy.PrepareIsExact` | scripts/graph_v2_study.py:174-195 | an arm is started exactly when none is active, it heads the queue, the clone is clean and it was never started; its interval begins now |
| `GraphStudy.CollectIsExact` | scripts/graph_v2_study.py:222-261 | a collection changes exactly one settled single attempt, once; a good answer ends its interval |
| `GraphStudy.FinishIsExact` | scripts/graph_v2_study.py:285-316 | what is recorded of the settled active arm, its failure included, or why the study is INVALID or the arm stays |
| `GraphStudy.AttemptsStay` | scripts/graph_v2_study.py:174-195 | over every run an attempt keeps its start, boot and route and is never begun anew |
| `GraphStudy.VoidIsExact` | scripts/graph_v2_study.py:318-354 | a void takes effect if and only if the reason is infrastructure, everything is settled, the pair is at work and no record or attempt of it is a model failure; a first or second plain pair then leaves RUNNING with its replacements first, in the order of the pair, and any other INVALID |
| `GraphStudy.RecordsStepOn` | scripts/graph_v2_study.py:326-344 | a command moves records only from the runs to the voided runs, and none of a model failure |
| `GraphStudy.FailuresStay` | scripts/graph_v2_study.py:326-344 | over every run no voided record is a model failure, a failure once recorded stays recorded, and no record is lost |
| `GraphStudy.FinishBeforeCollectLosesTheEnd` | scripts/graph_v2_study.py:286-309 | finishing a single arm whose node is not collected yet loses the end of its interval |
| `GraphStudy.EndIsLostInThreeCommands` | scripts/graph_v2_study.py:142-316 | freezing, preparing the first arm on the single route and finishing it before it is collected reaches that state from nothing |
| `GraphStudy.LostEndStays` | scripts/graph_v2_study.py:222-316 | after any sequence of commands such an arm is still active and nothing more is recorded, unless a pair is voided, a failure is found in it or the study is INVALID |
| `GraphStudy.RegisteredScheduleIsWellFormed` | docs/measurements/graph-v2/PROTOCOL.json:14 | the registered schedule of eight tasks has 32 plain labels, each slot once and both arms of every pair |
| `Packing.PackKind` | scripts/graph_v2_grade.py:41-49 | the pass over one kind computes the greedy batches or names the question that does not fit |
| `Packing.Batches` | scripts/graph_v2_grade.py:39-50 | real questions first, then semantic ones |
| `Packing.PackPartitions` | scripts/graph_v2_grade.py:39-50 | the batches are non-empty, within the count and byte limits, and joined they are the questions in order |
| `Packing.RefusesExactlyTooLarge` | scripts/graph_v2_grade.py:47 | packing is refused exactly when some question alone exceeds 18000 bytes |
| `Packing.PackIsMinimal` | scripts/graph_v2_grade.py:39-50 | no partition of the questions in order into batches within the limits has fewer batches |
| `Packing.PackIsGreedy` | scripts/graph_v2_grade.py:43-48 | no batch could take the first question of the next one |
| `Packing.RefusalNamesTheFirst` | scripts/graph_v2_grade.py:47 | a refusal names the first question that is too large alone |
| `Packing.BytesAreMonotone` | scripts/graph_v2_grade.py:18-38 | the size of a capsule (frame, texts, each occurring base's sources once) does not grow when questions at either end are left out |
| `Grading.Store.Retry` | scripts/graph_v2_grade.py:156-168 | a retry stores the rejected session only for a first attempt whose settled, completed transcript read its capsule and gave no exact map; a violation invalidates, anything else refuses |
| `Grading.Store.Collect` | scripts/graph_v2_grade.py:170-206 | a collect returns the accepted answer of the current attempt, stores it the first time, or refuses or invalidates |
| `Grading.Store.Combine` | scripts/graph_v2_grade.py:207-216 | the loop over the batches, with its session and question checks, yields the verdicts or refuses |
| `Grading.CollectIsExact` | scripts/graph_v2_grade.py:170-206 | when a batch is collected, over the fields of its transcript and the ledgers; its answer is then the transcript's booleans question by question, and what else changes |
| `Grading.RetryIsExact` | scripts/graph_v2_grade.py:156-168 | when a batch is retried, over the fields of its first transcript and the ledgers, and what else changes |
| `Grading.CombineIsExact` | scripts/graph_v2_grade.py:207-216 | a combine succeeds exactly when every batch can be collected, the sessions differ and no question is in two batches |
| `Grading.NothingIsReplaced` | scripts/graph_v2_grade.py:125-216 | over every run of commands and growing transcripts the ledgers stay sound, and what is settled, rejected or accepted never changes |
| `Grading.FirstExactAnswerIsFinal` | scripts/graph_v2_grade.py:125-168 | a batch whose first settled transcript holds an exact boolean map is never retried, and what is accepted for it are the very booleans of that map |
| `Grading.RetriedOnceFromAnotherSession` | scripts/graph_v2_grade.py:156-194 | a batch is retried at most once, only after a settled inexact answer, and an accepted retry holds the booleans of the second transcript, from another session |
| `Grading.CombinedVerdicts` | scripts/graph_v2_grade.py:207-216 | a successful combine gives every question exactly one boolean, that of its batch, with a session of its own per batch |
| `Grading.VerdictsAreTheAnswers` | scripts/graph_v2_grade.py:198-216 | the verdict of every question is the boolean that the native transcript of its batch's current attempt gives it |
| `Grading.VerdictsNeverChange` | scripts/graph_v2_grade.py:170-216 | whatever happens between, any two successful combines agree |
| `GradedQueue.BatchesAskTheQueue` | scripts/graph_v2_grade.py:39-50 | the packed batches ask exactly the questions of the queue |
| `GradedQueue.VerdictsCoverTheQueue` | scripts/graph_v2_grade.py:207-216 | a successful combine over the packed batches has a verdict for exactly the questions of the queue |
| `Dispatch.RouteEvent` | hooks/itd_dispatch.py:300-323 | the loops write the rows of an event in order and a timeout ten seconds above the floor of the longest budget |
| `Dispatch.RouteGroup` | hooks/itd_dispatch.py:304-311 | the hooks of one group follow the rows written before, and the longest budget covers them |
| `Dispatch.EveryHookHasItsRow` | hooks/itd_dispatch.py:304-310 | every hook of every group has its row in the order of the settings, with its timeout or five seconds, marked exactly when it is a gate; there are no others |
| `Dispatch.LongestIsABudget` | hooks/itd_dispatch.py:301-311 | the longest budget is that of some row |
| `Dispatch.AtMostFifteenRoutable` | hooks/itd_dispatch.py:63-78 | no event has more than fifteen routable scripts |
| `Dispatch.Selected` | hooks/itd_dispatch.py:275-282 | the loop keeps the first matching row of every script with its hard-gate flag forced |
| `Dispatch.SelectedOnce` | hooks/itd_dispatch.py:277-282 | every script is selected at most once |
| `Dispatch.SelectedFromTable` | hooks/itd_dispatch.py:277-282 | a selected row is a matching row of the table, marked when its script is a hard gate |
| `Dispatch.SelectedAreFirstRows` | hooks/itd_dispatch.py:277-282 | each selected row is the first matching row of its script, in the order of the table, with the flag of the row or of the policy |
| `Dispatch.MatchIsSelected` | hooks/itd_dispatch.py:277-282 | no script with a matching row is left out |
| `Dispatch.StartAll` | hooks/itd_dispatch.py:334-344 | each hook starts when the waits for the rows before it end, at most a quarter of a second per row after the start |
| `Dispatch.FirstPassWaits` | hooks/itd_dispatch.py:334-344 | between two starts the first pass waits until the hook ends, at most a quarter of a second or its budget; a missing hook is not waited for |
| `Dispatch.Await` | hooks/itd_dispatch.py:345-359 | the result of every row is that of its hook at the later of its deadline and the end of the waits before it |
| `Dispatch.RunAll` | hooks/itd_dispatch.py:326-359 | one result per row in table order, that of its hook when the run stops waiting for it, within a quarter second per row plus the longest budget, for hooks that never end too |
| `Dispatch.OverrunIsExact` | hooks/itd_dispatch.py:345-359 | an overrun is reported exactly when the hook ended after its deadline, after the start of the second pass and after the end or deadline, whichever is earlier, of every hook started before it; the run stops waiting for it between its deadline and the bound of the run |
| `Dispatch.TimeIsGranted` | hooks/itd_dispatch.py:285-287 | no hook is reported as an overrun within its timeout, and no hard gate within thirty seconds |
| `Dispatch.LoneOverrunIsReported` | hooks/itd_dispatch.py:285-359 | a lone hook that outlasts its timeout, and thirty seconds if it is a hard gate, is reported |
| `Dispatch.OverrunBehindALongerWait` | hooks/itd_dispatch.py:345-359 | a hard gate that overruns its own deadline behind a longer wait and is not reported |
| `Dispatch.FailureIsExact` | hooks/itd_dispatch.py:345-359 | a result is a failure exactly when the hook is missing, overran or exited with a code other than 0 and 2, and blocks only when it is none |
| `Dispatch.LongHookFails` | hooks/itd_dispatch.py:345-359 | a hook that outlasts the bound of the run fails wherever it stands in the table |
| `Dispatch.FewRowsSelected` | hooks/itd_dispatch.py:241-282 | at most fifteen rows are selected from any accepted table, whatever it repeats |
| `Dispatch.DeadlineBelowRegistration` | hooks/itd_dispatch.py:275-359 | for every table routing writes with the policy's gates, and every tool, the bound of `run_all` is below the registered timeout |
| `Dispatch.Merge` | hooks/itd_dispatch.py:376-384 | a blocking answer is passed through if there is one, else a failed hard gate denies |
| `Dispatch.Dispatch` | hooks/itd_dispatch.py:436-454 | the call is blocked exactly when a hook that did not fail blocks, or a selected hard gate fails - missing, overrun or unknown code - where failures fail closed; within the time bound |
| `Bytecode.Installer.MakePlan` | scripts/itd_hook_bytecode.py:78-93 | the plan holds exactly the stale bytecode and the bytecode nobody owns, or names a source that does not compile |
| `Bytecode.Installer.Install` | scripts/itd_hook_bytecode.py:115-152 | an installation makes the files those of the specification, and touches something exactly when something was not clean |
| `Bytecode.Installer.Check` | scripts/itd_hook_bytecode.py:129-140 | a check reports no drift exactly when bytecode and inventory are current |
| `Bytecode.SourceHasItsBytecode` | scripts/itd_hook_bytecode.py:141-144 | after an installation every source has exactly the bytecode it is due, when sources that share a bytecode file are due the same |
| `Bytecode.InstalledIsClean` | scripts/itd_hook_bytecode.py:115-152 | right after an installation a check finds no drift and a second installation has nothing to do if and only if sources that share a bytecode file are due the same bytecode |
| `Bytecode.OrphansAreRemoved` | scripts/itd_hook_bytecode.py:88-93 | after an installation every cached file belongs to a source, and everything but bytecode and inventory is as it was |
| `Bytecode.CleanIsExact` | scripts/itd_hook_bytecode.py:78-140 | no drift means that every source has the bytecode it is due, every cached file belongs to a source and the inventory is that of the files |
| `Bytecode.CachedCodeIsCompiled` | hooks/itd_dispatch.py:131-187 | whatever happened to sources and bytecode since, bytecode that is used was compiled from the text the source holds now |
| `Bytecode.LoadingIsCompiling` | hooks/itd_dispatch.py:131-192 | with the inventory untouched and no hash collision, loading a hook yields what compiling it yields |
| `Bytecode.InstalledBytecodeIsUsed` | hooks/itd_dispatch.py:172-187 | right after an installation the bytecode of every source is used |
| `Glob.Walker.Walk` | scripts/itd_regression_select.py:335-357 | the memoised walk finds a match exactly when the rest of the pattern matches the rest of the path; a seen position is a finished non-match; each position is expanded once |
| `Glob.SegmentMatch` | scripts/itd_regression_select.py:320-359 | the answer is true exactly when the path splits into one block per token, a double star taking whole segments; expansions are bounded by the number of positions |
| `Glob.MatchesToken` | scripts/itd_regression_select.py:351-356 | a plain token takes exactly the first segment |
| `Glob.MatchesAny` | scripts/itd_regression_select.py:344-350 | a double star takes any number of whole segments |
| `Glob.FewPositions` | scripts/itd_regression_select.py:333-341 | there are no more positions than tokens times segments, ends included |
| `Glob.MatchRule` | scripts/itd_regression_select.py:362-370 | the first rule that matches, if any |
| `RegressionSelect.Normalize` | scripts/itd_regression_select.py:387-395 | the normalized paths once each, or a refusal exactly when one is not relative |
| `RegressionSelect.ApplyRules` | scripts/itd_regression_select.py:397-410 | suites named by rules, paths ruled without impact and unmapped paths are exactly those of the first matching rules |
| `RegressionSelect.Closure` | scripts/itd_regression_select.py:419-428 | the worklist ends on every map and lists exactly the reachable nodes, each once |
| `RegressionSelect.Weigh` | scripts/itd_regression_select.py:430-467 | the last three refusals in order, and the split of the suites by the mirror |
| `RegressionSelect.Select` | scripts/itd_regression_select.py:378-487 | every refusal exactly under its condition, else the closure suites are exactly those reachable or ruled, runnable and outside suites partition them, and some suite is runnable |
| `RegressionSelect.ClosureOfJoinedChanges` | scripts/itd_regression_select.py:419-431 | the closure of joined change lists is the union of the closures |
| `BoundedCapture.StepKeeps` | scripts/itd_machine_oracle.py:346-364 | every step of a reader - a read, its digest, its locked count - keeps the books of both readers and the shared count |
| `BoundedCapture.Capture.Round` | scripts/itd_machine_oracle.py:351-364 | one round of a reader adds its chunk to what was read, digested and counted, and goes on exactly while the count is within the limit |
| `BoundedCapture.Capture.Consume` | scripts/itd_machine_oracle.py:346-364 | the loop of an undisturbed reader ends at the end of its stream exactly when the stream fits under the limit, with all that was read digested, and else stopped with the overflow set |
| `BoundedCapture.Capture.Commit` | scripts/itd_machine_oracle.py:355-364 | the locked part counts the chunk, captures what the limit leaves, stops the reader past the limit, and keeps the invariant |
| `BoundedCapture.EveryStateIsKept` | scripts/itd_machine_oracle.py:335-364 | the books of both readers and the shared count agree in every interleaving |
| `BoundedCapture.CapturesAreBounded` | scripts/itd_machine_oracle.py:335-364 | each capture is a prefix of its stream, together they hold the smaller of the count and the limit, overflow means that the count passed the limit, and at most two chunks are read past it |
| `BoundedCapture.ReportCoversTheStreams` | scripts/itd_machine_oracle.py:366-401 | with both readers ended and none dead, overflow is reported exactly when the streams exceed the limit, the digests are those of all that was read, and without overflow the captures are the whole streams |
| `BoundedCapture.ReportWithoutOverflow` | scripts/itd_machine_oracle.py:366-401 | a report without overflow holds all that was read, and has both readers at the end of their streams exactly when neither died |
| `BoundedCapture.DeadReaderIsNotReported` | scripts/itd_machine_oracle.py:346-401 | for every run, the run in which each stream ends where its reader died has the same report, and no dead reader |
| `BoundedCapture.ReportOfStreams` | scripts/itd_machine_oracle.py:335-401 | a reported run without dead readers overflows exactly when the two streams hold more than the limit, and otherwise reports exactly the streams |
| `BoundedCapture.ReportIsOrderFree` | scripts/itd_machine_oracle.py:335-401 | two schedules of the same two streams, whatever chunks they read, agree on the overflow and give the same report when there is none |
| `OneTimeRecords.EveryRunIsKept` | hooks/codex-dispatch.py:336-358 | in every interleaving entries lead to files of their name, no file is held or spent twice, and every grant is backed by a written value |
| `OneTimeRecords.GrantsNeverExceedCreations` | hooks/codex-dispatch.py:396-419 | for every interleaving of any number of processes a record is granted at most as often as it was created |
| `OneTimeRecords.ApprovalsAreFresh` | hooks/codex-dispatch.py:411-419 | every granted approval is used from 0 to 1800 seconds after the time that was read, that time stood in a record of the hash, and the grant spends a record no other grant spends |
| `OneTimeRecords.CreatedOnceIsGrantedOnce` | hooks/completion_lib.py:946-956 | a record created once, as a run record is, is granted at most once, and from the file that was read |
| `OneTimeRecords.EntryStays` | hooks/codex-dispatch.py:396-419 | between two states of a run an entry leads to the same file exactly when no step removed or replaced it |
| `OneTimeRecords.ReadIsSpent` | hooks/codex-dispatch.py:407-414 | the record a process read is the record it unlinks exactly when no step between its read and its unlink removed or replaced the entry |
| `OneTimeRecords.GrantIsTraced` | hooks/codex-dispatch.py:396-419 | every grant of every run goes back to a read and an unlink of one process, and was judged by the record it spent exactly under that condition |
| `OneTimeRecords.OneTimeCanServeTwice` | hooks/codex-dispatch.py:396-419 | a concrete schedule in which one time serves two grants |
| `OneTimeRecords.ApprovalStore.RecordApprovals` | hooks/codex-dispatch.py:349-358 | afterwards every named hash has a record, new ones with the time of their writing, old ones untouched |
| `OneTimeRecords.ApprovalStore.ConsumeApproval` | hooks/codex-dispatch.py:396-419 | undisturbed, an approval is granted exactly when there is a record with a good time, and the record is gone either way |
| `LedgerDiff.DiffIsExact` | scripts/itd_closure_delta.py:507-529 | the diff is empty exactly when the two trees agree in values, types and key order |
| `LedgerDiff.DifferencesAreReal` | scripts/itd_closure_delta.py:507-529 | every reported path leads, in both trees, to values that differ |
| `LedgerDiff.DiffOfShapes` | scripts/itd_closure_delta.py:507-529 | what is reported of two values of different shape: the keys only one has, another key order, another length, or another value |
| `LedgerDiff.NormalizeGoal` | scripts/itd_closure_delta.py:532-568 | the edits of the copied goal mask exactly the update time, the found unit's receipt, time and evidence, and a candidate's hand-set status |
| `LedgerDiff.NormalizeState` | scripts/itd_closure_delta.py:571-581 | the edit masks exactly the completion time of this unit |
| `LedgerDiff.GoalsAgree` | scripts/itd_closure_delta.py:532-568 | masked goals are equal exactly when the candidate differs from the harness's goal in nothing but those fields |
| `LedgerDiff.StatusMayDiffer` | scripts/itd_closure_delta.py:556-560 | the status may differ only as `done` in the candidate against `active`, with all the candidate's units verified or skipped, and then must |
| `LedgerDiff.StatesAgree` | scripts/itd_closure_delta.py:571-581 | the same for states |
| `LedgerDiff.CompareJson` | scripts/itd_closure_delta.py:584-590 | nothing is found exactly when the candidate's own fields are in order and it differs from the harness's result only in the masked fields |
| `InsertedLines.LinesAreTheFile` | scripts/itd_closure_delta.py:281-282 | the lines joined are the file, cut after every newline and nowhere else |
| `InsertedLines.PlacedIsMet` | scripts/itd_closure_delta.py:756-760 | the greedy scan is complete: any placed beginning of the old lines is met |
| `InsertedLines.ScanIsExact` | scripts/itd_closure_delta.py:756-762 | the scan meets all old lines exactly when they are a subsequence of the new ones |
| `InsertedLines.LeftIsTheRest` | scripts/itd_closure_delta.py:755-761 | what the scan leaves over is, as a multiset, the new lines without the old ones, however they are placed |
| `InsertedLines.CheckInsertedLines` | scripts/itd_closure_delta.py:752-767 | nothing is found exactly when the old lines are all still there in order and every other line is a whole line of UTF-8; a line reported gone is the first one no placing reaches; any other finding names a line of the new file that is not UTF-8, or is but lacks its newline |
| `AuditCarry.SplitJoined` | skills/_shared/itd_bypass_audit.py:50 | the lines of joined texts are the lines of both, the last of one and the first of the other being one line |
| `AuditCarry.JoinedReads` | skills/_shared/itd_bypass_audit.py:38-62 | a readable text stays readable before another exactly when that one is readable and they do not share a line, and then the rows of both are read |
| `AuditCarry.Rows` | skills/_shared/itd_bypass_audit.py:38-62 | the audit rows of a text, or a refusal exactly when one line is no row with an id |
| `AuditCarry.Index` | skills/_shared/itd_bypass_audit.py:103-110 | the journal is indexed exactly when no id has two payloads in it |
| `AuditCarry.Sift` | skills/_shared/itd_bypass_audit.py:116-134 | the pending rows pass exactly when no id has two payloads within them or across them and the journal, and the rows kept are the first of every new id |
| `AuditCarry.RenderAll` | skills/_shared/itd_bypass_audit.py:138-139 | the payload of all rows is built before anything is written, and exists exactly when every row can be encoded |
| `AuditCarry.Memory.Carry` | skills/_shared/itd_bypass_audit.py:70-143 | the refusal conditions, the report and the journal text after a carry or a dry run |
| `AuditCarry.WrittenRowsAreRead` | skills/_shared/itd_bypass_audit.py:137-140 | what is appended reads back as the rows it was rendered from exactly when no rendered row contains a line boundary |
| `AuditCarry.CarriedReadsBack` | skills/_shared/itd_bypass_audit.py:137-140 | what was carried reads back if and only if nothing is new, or the text after the journal's last line boundary is blank and no new row is rendered with a boundary inside; else the journal cannot be read any more |
| `AuditCarry.NothingIsLost` | skills/_shared/itd_bypass_audit.py:70-143 | under that condition every ledger row stands in the journal with its payload; the journal is readable exactly under it |
| `AuditCarry.NothingIsDoubled` | skills/_shared/itd_bypass_audit.py:115-143 | the journal keeps its text, and under that condition its rows are the old ones and one per new id |
| `AuditCarry.LateCarry` | skills/_shared/itd_bypass_audit.py:70-143 | a carry after a carry of a beginning of the ledger goes through exactly when one carry of the whole would and the journal is still readable |
| `AuditCarry.CarriesAreConfluent` | skills/_shared/itd_bypass_audit.py:70-143 | however appends and carries interleave, a last carry goes through exactly when one carry at the end would and no carry has spoiled the journal, and leaves exactly its journal; none has when that one carry would read back |
| `AuditCarry.RepeatAppendsNothing` | skills/_shared/itd_bypass_audit.py:70-143 | a repeated carry goes through if and only if the first one reads back, and then appends nothing |
| `AuditCarry.UnendedJournalIsSpoiled` | skills/_shared/itd_bypass_audit.py:137-140 | a journal without its final newline: the carry joins two rows on one line and a repeat refuses |
| `AuditCarry.EscapedBoundaryIsSpoiled` | skills/_shared/itd_bypass_audit.py:137-140 | a ledger row with an escaped line separator is written unescaped, and a repeat refuses |

## Left out

- `display_only_command`, `compute_verdict` and the command classifiers of hooks/completion_lib.py: they combine the
  scanner and the layer verdicts without a state of their own.
- Command substitutions that nest quotes, and quotes inside `#` comments: the automaton of `ShellScan` treats a
  substitution as text, as the three scanners do.
- The regular expressions for here-document words, trailing redirects, run lines and exit echoes, and `str.splitlines`:
  they are parameters, and outputs are lists of lines.
- `SplitTop`'s one loop is written once for each value of `statements`; the two branches share no iteration.
- `ShellScan.StopFollowsTheAutomaton`: says nothing inside here-document bodies, which POSIX quoting does not govern,
  nor about a lone backslash at the very end.
- `ShellScan.CutsAreExact`: is about commands without here-documents, and so is `ShellScan.RefusalIsExact`; for the
  others `ShellScan.StatementsLossless`, `ShellScan.HereDocument` and `ShellScan.BodyEndIsExact` say what is kept and
  where a body ends.
- `GuardedPush.LandsAtMostOnce`: assumes that nobody else moves the ref and that a push takes effect, if at all, before
  its error is seen; a push whose effect arrives after its child has ended is outside the model.
- `with_transport_retry`, `create_pull_request` and `check_state` of scripts/itd.py: without an assumption about when a
  request takes effect they promise no more than their loops say.
- Durations in `GuardedPush` and `Dispatch` are real numbers; the rounding of floating-point clocks is not modelled.
- The node-level files of a study (launches, observations, native snapshots), and crashes between the writes of one
  command: a command reads and replaces the ledgers as a whole.
- The settling that `void` does first is a `Collect` before it; `verify` is modelled as far as the two ledgers and the
  attempts go, not the receipts and native bytes.
- The replay mode (`live=False`) of the study and of grading.
- `Grading.Store.Combine`: the atomicity of `combine` is assumed, as for the other commands.
- In `Dispatch`, the text of the answers, the advice `merge` joins when nothing blocks, the union of matchers that
  `routing` registers, and the table's JSON shape; computation between two waits takes no time.
- `Bytecode.LoadingIsCompiling`: the inventory is as the installer left it and the hashes of the files at hand do not
  collide; sources that share a bytecode file are due the same bytecode, and a file that was no source of the
  installation and shares its bytecode file with one must compile like it.
- In `RegressionSelect`, the order of the suite lists, the echoed change list, the size of the closure, the note and
  the texts of the refusals; `load_graph`, `load_patterns` and the reading of the mirror are inputs.
- In `BoundedCapture`, the process itself, its timeout and its termination: streams deliver what they deliver.
- `private_entry` and the checks of directory ownership in hooks/codex-dispatch.py: a refused entry changes nothing.
- `merge_json` and `normalized_payloads` of hooks/codex-dispatch.py: they add no protocol.
- In `LedgerDiff`, the candidate's own checks (times, evidence, receipt) are a list of errors given to `CompareJson`;
  NaN and negative zero do not exist in the model's numbers; a list of units that cannot be iterated raises in the
  program and is a list without the unit here; the edits of the found unit are written back instead of being shared.
- `check_events`, `check_appended_text`, `check_acceptance` and the other record checks of scripts/itd_closure_delta.py:
  each is a local comparison.
- In `AuditCarry`, anchored reads and the durable append are a read and an append; a missing file is an empty one; a
  file that is not UTF-8, which raises in the program, is not represented. `AuditCarry.Format.Json` says what is
  asked of the JSON library: a line is stripped, only blank text may follow a value, and a rendered row reads back,
  starts with its brace and cannot be cut short.
- OTel export, metrics, installers, manifests, profiles, SemVer ordering and the other field-by-field validators.
