# kubectl-debug, verified

A Dafny model of the parts of kubectl-debug in which state matters, with proofs.
`dafny verify dfyconfig.toml` checks all of it. There is one module per file:

| module | subject |
|---|---|
| `Terminal` | a character terminal: window, scroll-back, cursor, LF, CR, CUU, CUD, EL (sections 8.3.22, 8.3.19 and 8.3.41 of ECMA-48) |
| `JsonStream` | the multi-line progress renderer: decode loop, line map, emitted characters |
| `ProgressScreen` | what those characters do to a terminal, for every stream |
| `ProgressLog` | what a user is meant to see, without cursors or line numbers |
| `ScreenShowsLog` | the screen is the log; the bound on the number of layers is tight |
| `ShownText` | from the fields of a message to the row that shows it |
| `Float64` | rounding to the nearest float64, ties to even (section 4.3.1 of IEEE 754) |
| `BarLength`, `BarBorders`, `BarPercentage` | the percentage behind the bar: rounding, the exact border of each length, and conversion to int on any machine |
| `TimeEstimate` | the time-left estimate, wrap-around included |
| `ProgressBar` | the text of one progress detail |
| `Session` | the plugin's `Run`: pods created and deleted, clean-up, terminal guard |
| `PortForward` | the ready/stop handshake with the port-forwarding goroutine, all interleavings |
| `ForwardedSession` | `Run` composed with that goroutine |
| `ForkPod` | fork mode: labels, the stripped copy, target container lookup |
| `Resize` | the terminal-resize pipeline, all interleavings, and the Windows poller |
| `PullProgress` | the agent's tick-driven pull table |
| `HijackedConnection` | the agent's two stream copiers, all interleavings |
| `DebugContainer` | acquisition and deferred release in the containerd `RunDebugContainer` |
| `AuditCommand` | the audited command and its FIFO placeholder |
| `Embedding`, `Common` | subsequences with their positions; small shared helpers |

Code that updates state is modelled by methods, classes and loops; each is
proved against a function of its inputs, and the lemmas are about that function;
lemmas named `...Fields` say in terms of the inputs alone what such a function is.
Concurrent code is a step relation: a schedule is any sequence of steps, and the
lemmas quantify over all schedules. External calls are arbitrary outcomes
(`World`, `Faults`, `Answers`, `Env` with its `Machine`, the `lateErrors` switch).

The renderer is proved in four layers. `JsonStream.DisplayJSONMessagesStream`
writes exactly the characters `StreamBytes`; a terminal fed with them rests on
the paper `PaperRun` (`ProgressScreen.StreamWritesPaper`, for every stream);
that paper equals the declarative log as long as no update reaches past the
screen (`ProgressLog.StepAgreesExactly`, `ScreenShowsLog.RunAgrees`); and so the
window shows the last rows of the log (`ScreenShowsLog.ScreenIsLogThroughout`).

## What the code does not keep

These expectations are false of the code. The proofs give the exact condition
under which each holds, and an input on which it fails.

- A layer's line can be updated in the wrong place: a terminal of height h is
  safe for every stream with at most k layers at a time if and only if k < h
  (`ScreenShowsLog.BoundIsTight`; message by message `ProgressLog.StepAgreesExactly`).
- A progress detail can panic on a terminal wider than 110 columns, in two ways
  that together are exactly the panics (`ProgressBar.String`,
  `BarPercentage.PercentageNegative`): the count is a fiftieth of the total or more
  below zero, up to rounding (`BarLength.FiftiethBelowZero`,
  `BarPercentage.NegativeExample`); or the percentage does not fit in an int and
  the machine's conversion comes out at -2 or less
  (`BarPercentage.LargeCountExample`).
- The bar is in its box, grows with the count and is near the exact one on every
  machine only for counts whose percentage fits in an int
  (`BarPercentage.PercentageRange`, `BarPercentage.PercentageMonotone`,
  `BarPercentage.PercentageNear`). The border is a condition on the converted count
  and total, and a total above 100 or a count up to 2^56 is always within it
  (`BarPercentage.ScaledInRange`, `BarPercentage.UsuallyInRange`).
- The estimate of the time left can be wrong, even negative: it is right exactly
  if something is left, the start is not in the future, and remaining units times
  nanoseconds per unit fit in 64 bits (`TimeEstimate.TimeLeftBounds`,
  `TimeEstimate.TimeLeftExample`).
- The bar is not the exact percentage. While the percentage fits in an int it
  shows k characters or more exactly if the converted count and total are past the
  k-th border (`BarBorders.BarReaches`), so it is exact if and only if the border
  of the exact length is passed and the next is not
  (`BarPercentage.PercentageExact`). For totals up to 2^47 that fails for exactly
  58 of a hundred (`BarPercentage.PercentageExactSmall`,
  `BarPercentage.NotExactExample`, `BarPercentage.NearMultipleExample`). It is
  never off by more than one (`BarPercentage.PercentageNear`).
- A bar of 50 characters need not mean that the transfer is complete: exactly the
  counts smaller than the total after conversion to float64 show as parts
  (`BarPercentage.PercentagePart`, `BarPercentage.WholeTooEarlyExample`); up to
  2^53 those are the parts (`BarPercentage.PercentagePartSmall`).
- A created agent pod stays behind exactly if it is not seen running or the
  terminal refuses raw mode (`Session.AgentStaysBehind`,
  `Session.AgentLeakExample`); a created forked pod stays behind exactly if it is
  not seen running, the container is not found in it, there is no running agent
  to forward to, or raw mode is refused (`Session.ForkStaysBehind`,
  `Session.ForkLeakExample`).
- The containerd debug container is not released on every path: its deletion is
  deferred only after it has been labelled, and the trace is a bracket word
  exactly unless that labelling panics (`DebugContainer.BalancedExactly`,
  `DebugContainer.LabelsPanicExample`).
- A FIFO path can leave a placeholder in the audit command: exactly if the path
  is not `Inert`, which for a path whose ends share no character with the
  placeholder means that the placeholder is inside the path
  (`AuditCommand.PlaceholderGone`, `AuditCommand.PathInert`,
  `AuditCommand.PlaceholderLeftExample`).
- The port-forward handshake is free of panics if and only if `ForwardPorts`
  never fails after it has signalled ready (`PortForward.SafeExactly`,
  `PortForward.LateFailurePanics`).
- The comment on `Next` (pkg/util/resize.go:120-121) says it returns nil once
  monitoring stops. The channel it reads is never closed, so it blocks
  (`Resize.NextBlocks`); the model follows the code.

## Model

| member | source | states |
|---|---|---|
| Terminal.FeedText | pkg/util/jsonstream.go:204-223 | printable text that fits before the right margin overwrites exactly the cells under it and moves the cursor by its length |
| Terminal.FeedDecimal | pkg/util/jsonstream.go:172-183 | the digits printed for `%d` are read back by the terminal as that number |
| Terminal.FeedControl | pkg/util/jsonstream.go:165-185 | a printed control sequence with a decimal parameter acts as the control function it encodes |
| Terminal.FeedBareControl | pkg/util/jsonstream.go:157-162 | a control sequence without parameter acts with parameter 0 |
| JsonStream.ClearLine | pkg/util/jsonstream.go:148-163 | writes the two EL sequences, nothing else |
| JsonStream.CursorUp | pkg/util/jsonstream.go:165-174 | writes CUU with the given count, nothing for 0 |
| JsonStream.CursorDown | pkg/util/jsonstream.go:176-185 | writes CUD with the given count, nothing for 0 |
| JsonStream.PrintLabel | pkg/util/jsonstream.go:204-214 | nanosecond timestamp before second timestamp, then ID and origin, each only if present |
| JsonStream.LabelFields | pkg/util/jsonstream.go:204-214 | the label by the fields of a message: the nanosecond timestamp wins, the ID is printed whether or not the message tracks, the origin comes last |
| JsonStream.TracksFields | pkg/util/jsonstream.go:270 | which messages get a line of their own |
| JsonStream.PrintBody | pkg/util/jsonstream.go:204-223 | label, then the first of progress (terminal only), progress message, stream, status line |
| JsonStream.Display | pkg/util/jsonstream.go:190-225 | what one message writes; a message with an error writes nothing and returns it, code 401 as its own text |
| JsonStream.TerminalFields | pkg/util/jsonstream.go:190-225 | what a message prints on a terminal, case by case of its fields |
| JsonStream.PlainFields | pkg/util/jsonstream.go:198-223 | what it prints elsewhere: progress with a text hides the message |
| JsonStream.ErrorFields | pkg/util/jsonstream.go:191-196 | only code 401 has its message rewritten |
| JsonStream.Approach | pkg/util/jsonstream.go:270-296 | the line map after the message, its distance from the cursor, and the characters that reach its line |
| JsonStream.DisplayNext | pkg/util/jsonstream.go:266-303 | one turn of the loop: the way up and the way down have the same length whatever Display does, errors included |
| JsonStream.DisplayJSONMessagesStream | pkg/util/jsonstream.go:230-306 | the whole output, the error (the first one reported, else the decoder's) and the auxiliary messages passed on before it |
| JsonStream.StreamErrorFirst | pkg/util/jsonstream.go:252-303 | the error returned is that of the first message that reports one and is not auxiliary, else the decoder's |
| JsonStream.AuxSnoc | pkg/util/jsonstream.go:260-265 | an auxiliary message is passed on exactly if no error came before it |
| JsonStream.LinesKept | pkg/util/jsonstream.go:270-295 | the line map stays a bijection onto 0..n-1 in order of first appearance; a progress message is 1..n lines above the cursor, any other 0 |
| JsonStream.NoTerminalNoProgress | pkg/util/jsonstream.go:198-223 | off a terminal the output does not depend on the line map: message bodies only, no cursor movement, no progress |
| ProgressScreen.FeedClear | pkg/util/jsonstream.go:148-163 | the two EL sequences blank the cursor's whole row and no other |
| ProgressScreen.FeedDisplay | pkg/util/jsonstream.go:190-225 | one message paints the cursor's row (replace, overlay, or nothing), scrolls only for a status line, and ends in column 0 |
| ProgressScreen.FeedMove | pkg/util/jsonstream.go:165-185 | the movement characters act on the screen as CUU and CUD by n |
| ProgressScreen.MoveFields | pkg/util/jsonstream.go:165-185 | the cursor's row after them is max(row - n, 0) or min(row + n, height - 1), column 0, and no row of the window changes |
| ProgressScreen.UpPaintDown | pkg/util/jsonstream.go:285-300 | up and down cancel although the cursor is clamped, and the painted row is min(d, height-1) above the cursor |
| ProgressScreen.FeedTracked | pkg/util/jsonstream.go:270-300 | a progress message, its new row and the scrolling included, leaves the terminal on the paper predicted for it |
| ProgressScreen.FeedUntracked | pkg/util/jsonstream.go:289-303 | so does any other message |
| ProgressScreen.StreamWritesPaper | pkg/util/jsonstream.go:250-305 | for every stream with any number of layers: column 0, last written row, nothing below, and the written rows are those of `PaperRun` |
| ProgressLog.EpochIds | pkg/util/jsonstream.go:270-284 | no layer is listed twice |
| ProgressLog.EpochIdsComplete | pkg/util/jsonstream.go:270-284 | the lines of an epoch are exactly those of the IDs that occur in it |
| ProgressLog.EpochIdsOrdered | pkg/util/jsonstream.go:273-284 | lines are in order of first appearance |
| ProgressLog.LatestReplaces | pkg/util/jsonstream.go:198-216 | a line shows its layer's last replacing message, blank to the margin, whatever was there before |
| ProgressLog.LatestUntouched | pkg/util/jsonstream.go:270-303 | messages of other layers leave a line alone |
| ProgressLog.LogStepTracked | pkg/util/jsonstream.go:270-303 | a progress message changes one line of the log: its own, appended first if the ID is new |
| ProgressLog.StepAgrees | pkg/util/jsonstream.go:266-303 | one message keeps paper and log equal if its line is less than a screen above the cursor |
| ProgressLog.StepAgreesExactly | pkg/util/jsonstream.go:285-300 | a progress message is shown right if and only if its line is less than a screen up, or drawing it changes neither its own line nor the top row of the window |
| ScreenShowsLog.RunAgrees | pkg/util/jsonstream.go:250-305 | paper and log stay equal over every stream with fewer layers at a time than the screen has rows |
| ScreenShowsLog.ScreenIsLog | pkg/util/jsonstream.go:230-306 | refinement: after every such stream the terminal has written the log and its window shows the log's last rows |
| ScreenShowsLog.ScreenIsLogThroughout | pkg/util/jsonstream.go:230-306 | the same after each message of the stream |
| ShownText.MessageShown | pkg/util/jsonstream.go:190-303 | the row on which the terminal shows a message, and its text from the message's fields alone, blank to the margin for progress |
| ScreenShowsLog.OverflowMisses | pkg/util/jsonstream.go:273-287 | at every height there is a stream with that many layers whose last update goes wrong |
| ScreenShowsLog.BoundIsTight | pkg/util/jsonstream.go:273-287 | every terminal of height h displays every stream of at most k layers correctly if and only if k < h |
| Float64.RoundGrows | pkg/util/jsonstream.go:72 | rounding to float64 keeps order, across exponents too |
| Float64.RoundAt | pkg/util/jsonstream.go:72 | which float64 a number is rounded to, by scaling it to 53 bits |
| Float64.RoundInteger | pkg/util/jsonstream.go:72 | integers of at most 53 bits are converted exactly |
| Float64.RoundNear | pkg/util/jsonstream.go:72 | the relative error of an operation is at most 2^-53 |
| Float64.RoundScales | pkg/util/jsonstream.go:72 | a factor that is a power of two does not change how a number is rounded |
| BarPercentage.ScaledInRange | pkg/util/jsonstream.go:72 | for which counts and totals the rounded percentage fits in an int, exactly |
| BarPercentage.UsuallyInRange | pkg/util/jsonstream.go:72 | it does for every count up to 2^56 in size, and for every total above 100 |
| BarPercentage.PercentageRange | pkg/util/jsonstream.go:72-75 | for counts from 0 the percentage is in 0..50, and below 50 only if current < total, on every machine if and only if the count is one of those |
| Float64.FloatsApart | pkg/util/jsonstream.go:72 | different float64s are apart by a factor of at least 1 - 2^-53, across exponents too |
| BarPercentage.PercentagePart | pkg/util/jsonstream.go:72-106 | a count shows as a part exactly if it is smaller than the total after conversion, on every machine if and only if the percentage fits |
| BarPercentage.PercentagePartSmall | pkg/util/jsonstream.go:72-106 | for totals up to 2^53 exactly the parts show as parts, on every machine if and only if the percentage fits |
| BarPercentage.WholeTooEarlyExample | pkg/util/jsonstream.go:72-75 | beyond 2^53 a part can show as the whole: 2^53 of 2^53 + 1 |
| BarBorders.BarReaches | pkg/util/jsonstream.go:72-75 | for every count and total: the bar has at least k characters if and only if the converted numbers are past the k-th border |
| BarBorders.PastFiftieths | pkg/util/jsonstream.go:72-75 | up to 2^47 that border is k fiftieths, included for every k but 29 |
| BarPercentage.PercentageExact | pkg/util/jsonstream.go:72-75 | the bar is floor(50·current/total), capped, on every machine if and only if the percentage fits, its border is passed and the next is not |
| BarPercentage.PercentageExactSmall | pkg/util/jsonstream.go:72-75 | for totals up to 2^47: if and only if the percentage fits and 50·current ≠ 29·total |
| BarPercentage.NearMultipleExample | pkg/util/jsonstream.go:72-75 | beyond 2^47: 193112641582695 of 235503221442311 shows 41 characters where the exact bar has 40 |
| BarPercentage.PercentageNear | pkg/util/jsonstream.go:72-75 | it is at most one character away from the exact bar, on every machine if and only if the percentage fits |
| BarPercentage.NotExactExample | pkg/util/jsonstream.go:72 | 58 of 100 shows 28 characters where the exact bar has 29, on every machine |
| BarPercentage.PercentageMonotone | pkg/util/jsonstream.go:72-75 | a larger count shows no shorter bar on every machine, if and only if its percentage fits or is the same |
| BarPercentage.PercentageNegative | pkg/util/jsonstream.go:72-82 | for every count, total and machine: the repeat count is negative if and only if the percentage does not fit and is converted to -2 or less, or it fits and the count is past an exact border below zero |
| BarLength.FiftiethBelowZero | pkg/util/jsonstream.go:72-82 | for totals up to 2^53 that border is 50·current ≤ -total |
| BarPercentage.NegativeExample | pkg/util/jsonstream.go:72-82 | current -1 of total 50 makes the repeat count negative on every machine |
| BarPercentage.LargeCountExample | pkg/util/jsonstream.go:72-82 | current 2^57 of total 1 makes it negative where a value that does not fit is converted to -2^63 |
| ProgressBar.BarBox | pkg/util/jsonstream.go:76-83 | the bar box is always 54 characters wide |
| TimeEstimate.TimeLeftBounds | pkg/util/jsonstream.go:106-115 | the estimate is whole seconds, not negative, at most the linear extrapolation and short of it by less than (total-current) ns + 1 s, if and only if current < total, the elapsed time is not negative and its product fits in 64 bits |
| TimeEstimate.TimeLeftExample | pkg/util/jsonstream.go:106-115 | two negative estimates: one byte of thirteen billion after a second, and a start an hour in the future |
| TimeEstimate.WrapFields | pkg/util/jsonstream.go:109 | a product is kept exactly if it fits in 64 bits, and is otherwise off by a multiple of 2^64 |
| TimeEstimate.InstantFields | pkg/util/jsonstream.go:107 | a start is kept exactly if its seconds since the year 1 fit in 64 bits |
| TimeEstimate.SaturateFields | pkg/util/jsonstream.go:107 | an elapsed time is kept exactly if it fits in 64 bits, else the nearest value is taken |
| ProgressBar.WidthFields | pkg/util/jsonstream.go:48-57 | without a known width 200 columns are assumed |
| ProgressBar.NumbersText | pkg/util/jsonstream.go:85-104 | the counts, case by case |
| ProgressBar.EstimateShown | pkg/util/jsonstream.go:106-115 | with a clock in range, the estimate printed is good exactly under the condition of the bounds |
| ProgressBar.String | pkg/util/jsonstream.go:46-117 | the text in every case, and exactly when there is none because the program panics; with a clock in range it ends in an estimate that is good exactly under the condition of the bounds |
| Session.DebugOptions.LaunchPod | pkg/plugin/cmd.go:888-909 | reports a pod exactly if it was created and ran; it may have been created without running |
| Session.DebugOptions.DeleteAgent | pkg/plugin/cmd.go:1131-1140 | one delete attempt in agentless mode, none otherwise; never called there without a pod |
| Session.DebugOptions.RunPortForward | pkg/plugin/cmd.go:1050-1073 | starts the goroutine exactly for a running agent pod |
| Session.DebugOptions.WithCleanUp | pkg/plugin/cmd.go:688-711 | the clean-up follows the session function whatever it returned, and its result is passed on |
| Session.DebugOptions.Safe | pkg/util/term.go:80-111 | the function is not invoked exactly if raw mode fails; otherwise the terminal is restored after it |
| Session.DebugOptions.Prepare | pkg/plugin/cmd.go:513-558 | authorization, agent pod, forked pod; an early exit has exactly the ledger of its kind |
| Session.DebugOptions.Connect | pkg/plugin/cmd.go:581-628 | finding the agent and waiting for ready; an early exit has exactly the ledger of its kind |
| Session.DebugOptions.Run | pkg/plugin/cmd.go:513-719 | for every outcome of the external calls: how `Run` ends, and everything it has done by then, in order |
| Session.TerminalExits | pkg/plugin/cmd.go:513-716 | which outcomes make `Run` end at the terminal, and which bring it to the session |
| Session.ExitFields | pkg/plugin/cmd.go:513-719 | for each way `Run` ends, exactly which outcomes make it end so |
| Session.TimesLedger | pkg/plugin/cmd.go:513-719 | how often each event happens, as a function of the outcomes |
| Session.AgentConservation | pkg/plugin/cmd.go:533-719 | an agent pod that reached running gets exactly one delete attempt, unless everything up to the terminal went well and raw mode is refused, then none; no attempt without such a pod |
| Session.AgentStaysBehind | pkg/plugin/cmd.go:533-719 | a created agent pod gets no delete attempt if and only if it was not seen running or raw mode is refused |
| Session.AgentLeakExample | pkg/util/term.go:96-103 | outcomes that leave an agent pod behind, with the whole ledger |
| Session.ForkConservation | pkg/plugin/cmd.go:547-697 | a forked pod that reached running gets exactly one delete attempt if the session runs, and none otherwise |
| Session.ForkStaysBehind | pkg/plugin/cmd.go:547-697 | a created forked pod gets no delete attempt if and only if it is not seen running, the container is not found, there is no agent to forward to, or raw mode is refused |
| Session.ForkLeakExample | pkg/plugin/cmd.go:565-569 | outcomes that leave a forked pod behind, with the whole ledger |
| Session.AuthFirst | pkg/plugin/cmd.go:527-558 | no pod is created before the user is authorized |
| Session.CleanupOrder | pkg/plugin/cmd.go:688-715 | forked pod deleted, then StopChannel closed, then agent pod deleted, then the size queue stopped and the terminal restored |
| Session.LedgerOrdered | pkg/plugin/cmd.go:513-719 | in every run events happen in the order of the program; with the counts that fixes the whole ledger |
| PortForward.Reached | pkg/plugin/cmd.go:1050-1073 | the invariant of every reachable state: the counter is 1 until the goroutine exits, and a send of the ready signal is pending only while main waits and the channel is open |
| PortForward.LateFailurePanics | pkg/plugin/cmd.go:1062-1067 | the schedule on which a late failure sends on the closed channel |
| PortForward.SafeExactly | pkg/plugin/cmd.go:1054-1071 | no interleaving sends on a closed channel, closes one twice or makes the WaitGroup negative, if and only if `ForwardPorts` never fails after ready |
| PortForward.NoDeadlock | pkg/plugin/cmd.go:1054-1071 | every step lowers a measure, and some step is enabled unless main has returned or the session is on |
| PortForward.CausesFirst | pkg/plugin/cmd.go:1054-1071 | in every schedule: main goes on only after a ready signal or an early failure, waits only after a good session and the closing of StopChannel, and the goroutine ends only for a reason |
| PortForward.NextSteps | pkg/plugin/cmd.go:1054-1071 | what main and the goroutine can do in every reachable state |
| PortForward.WaitEnds | pkg/plugin/cmd.go:699-718 | once main waits, at most three more steps happen and main only goes on to return |
| PortForward.DoneMeansDone | pkg/plugin/cmd.go:699-718 | Wait returns only after the goroutine has exited and StopChannel was closed |
| ForwardedSession.CanGoOn | pkg/plugin/cmd.go:615-718 | with the outcomes `Run` had, a schedule can go on until main has returned |
| ForwardedSession.RunReturns | pkg/plugin/cmd.go:615-718 | every schedule of `Run` and the goroutine has at most seven steps, records a prefix of `Run`'s ledger, and when it cannot go on main has returned and recorded all of it: both waits return |
| ForkPod.BuildForkPodLabels | pkg/plugin/cmd.go:845-855 | the labels restricted to the retained keys, in whatever order the map is visited |
| ForkPod.ForkName | pkg/plugin/cmd.go:864-866 | at most 34 characters of the name, then the xid and the suffix; at most 61 characters with a 20-character xid |
| ForkPod.CopyAndStripPod | pkg/plugin/cmd.go:859-885 | the copy differs in name, labels, restart policy, identity, probes and the target's command only, and has neither status nor type metadata; the original is not touched |
| ForkPod.FirstFields | pkg/plugin/cmd.go:763-766 | a name that occurs has exactly one first status, so the lookup is determined |
| ForkPod.GetContainerIDByName | pkg/plugin/cmd.go:762-792 | the first status of the name decides, init containers only if no other container has it |
| Resize.StepKeeps | pkg/util/resize.go:81-128 | every step of every goroutine keeps order, prefix and count |
| Resize.OrderKept | pkg/util/resize.go:81-128 | delivered, queued, in-hand and pending sizes are a subsequence of initial and observed sizes, and the lost ones make up the difference |
| Resize.InitialSizesFirst | pkg/util/resize.go:84-89 | the initial sizes are an undropped prefix of what is delivered or queued |
| Resize.PrimingNeverBlocks | pkg/util/resize.go:57-89 | the channel has room for every initial size |
| Resize.LossNeedsFullChannel | pkg/util/resizeevents.go:50-55 | a size is lost only to a full channel that nobody is reading from |
| Resize.CanPutDown | pkg/util/resize.go:106-112 | in every reachable state a forwarder that holds a size can put it down: to a waiting consumer first, else into the queue, else it is lost |
| Resize.CanMoveOn | pkg/util/resize.go:99-105 | a running forwarder takes what is pending; a producer's send always ends on Unix, and on Windows when there is room |
| Resize.CanObserve | pkg/util/resizeevents.go:42-47 | a producer told of a change obtains the size, or ends if there is no terminal |
| Resize.CanAsk | pkg/util/resize.go:122-128 | Next returns the oldest queued size at once, or waits |
| Resize.CanStop | pkg/util/resize.go:113-133 | after stop, and only then, each goroutine that has nothing in hand can end |
| Resize.SizesMoveOn | pkg/util/resize.go:99-117 | until the forwarder has stopped sizes on the way keep moving, each move leaves fewer, and none is left exactly when nothing is on the way |
| Resize.OldestNext | pkg/util/resize.go:99-128 | while the consumer waits, the oldest size on the way is the next one it gets, in every run |
| Resize.GivenGrows | pkg/util/resize.go:84-89 | an initial size is sent exactly if it is not nil |
| Resize.NextBlocks | pkg/util/resize.go:113-133 | once the forwarding goroutine has stopped Next returns only what is queued, and a consumer waiting in Next waits for good |
| Resize.HandleResizing | pkg/agent/resize.go:27-38 | the resize function is called for exactly the sizes without a zero, in order |
| Resize.UsableSizesSubsequence | pkg/agent/resize.go:31-36 | those are a subsequence of the received sizes and contain every usable one |
| Resize.UsableSizesCount | pkg/agent/resize.go:31-36 | each size is among them as often as it was received if neither side is zero, and not at all otherwise |
| Resize.AppliedSizes | pkg/agent/resize.go:27-38 | end to end: the sizes applied to the container are usable and a subsequence of those offered at the terminal |
| Resize.CompressIs | pkg/util/resizeevents_windows.go:52-56 | merging equal neighbours leaves no two, and keeps the first and the last size |
| Resize.CompressSelects | pkg/util/resizeevents_windows.go:52-56 | it selects in order and keeps every value |
| Resize.CompressFixes | pkg/util/resizeevents_windows.go:52-56 | it changes a sequence if and only if that stutters |
| Resize.CompressSnoc | pkg/util/resizeevents_windows.go:52-56 | a polled size is added exactly if it differs from the one before |
| Resize.PolledIs | pkg/util/resizeevents_windows.go:33-50 | the polls are the first size and one for each turn |
| Resize.Poll | pkg/util/resizeevents_windows.go:37-60 | first and emitted sizes are the merged polls up to the last completed send, for every way polling ends |
| Resize.MonitorByPolling | pkg/util/resizeevents_windows.go:29-62 | the same for the goroutine, which emits nothing if there is no terminal at first |
| PullProgress.Tracker.MarkActive | pkg/agent/runtime.go:448-459 | the table with the active transfers entered in order |
| PullProgress.MarkedIs | pkg/agent/runtime.go:448-459 | every active ref is downloading, no other entry changes |
| PullProgress.MarkedLast | pkg/agent/runtime.go:448-459 | a ref has the offset and total that were last reported for it |
| PullProgress.Tracker.Update | pkg/agent/runtime.go:470-509 | the new entry: done with its size if created during the pull, exists if before, waiting if not found, closed by the final pass, else unchanged; only absent or downloading entries are looked up, only before cancellation; an aborted update changes nothing |
| PullProgress.Tracker.UpdateJobs | pkg/agent/runtime.go:462-510 | all jobs not active get the entry the store's answer asks for, the first of several with one key deciding; the tick is given up exactly at the first lookup that fails, with the earlier jobs dealt with and nothing else changed, and never once cancelled |
| PullProgress.Tracker.Ordered | pkg/agent/runtime.go:512-515 | the rows of the keys in order |
| PullProgress.Tracker.Tick | pkg/agent/runtime.go:426-523 | entries move only as allowed; the whole outcome of a tick: no frame exactly if not cancelled and the active list is an error or a lookup fails; a frame has the image and each job in order, as reported active or answered by the store; once cancelled, every job settled |
| PullProgress.ImageRowFields | pkg/agent/runtime.go:431-438 | the image's row in a shown frame: resolved or resolving, no progress |
| PullProgress.ActiveRowFields | pkg/agent/runtime.go:448-459 | the row of an active job: downloading, with the offset and total last reported |
| PullProgress.LookedUpRowFields | pkg/agent/runtime.go:470-496 | the row of a job that had to be looked up: done with its size, existing or waiting, each exactly for its answer |
| PullProgress.KeptRowFields | pkg/agent/runtime.go:470-497 | any other job's row is kept |
| PullProgress.LastRowFields | pkg/agent/runtime.go:497-508 | the rows of the last frame: done or existing, progress kept |
| PullProgress.NoFrameFields | pkg/agent/runtime.go:443-476 | a tick without a frame is due to an error of the active list or of a lookup that was needed |
| PullProgress.Tracker.ShowProgress | pkg/agent/runtime.go:413-528 | the ticks of a run are those of its events up to the first one after a cancellation, in order, each with its whole outcome; it finishes if and only if there is such a tick, whose frame has every one of its jobs done or existing |
| PullProgress.TicksSnoc | pkg/agent/runtime.go:424-527 | a run gets to see one more tick exactly if no tick has followed a cancellation yet |
| PullProgress.RowStays | pkg/agent/runtime.go:442-510 | over whole runs a done, existing or waiting job keeps its row until it is reported active or, if waiting, the pull ends |
| HijackedConnection.ResultIsCopiersError | pkg/agent/runtime.go:279-305 | in every interleaving the result is the output copier's error if there is output, else nil and only after stdin has ended |
| HijackedConnection.SendIsReceived | pkg/agent/runtime.go:281-303 | while the copier's one send is pending main is there to receive it, and then returns it |
| HijackedConnection.NextSteps | pkg/agent/runtime.go:279-305 | what the copiers and main can do in every reachable state |
| HijackedConnection.AlwaysProgress | pkg/agent/runtime.go:279-305 | no deadlock and no endless run |
| DebugContainer.Runtime.Begin | pkg/agent/runtime.go:697-773 | what is acquired and deferred before the container is created, and when the body gets that far |
| DebugContainer.Runtime.Body | pkg/agent/runtime.go:696-909 | for every script of failing and panicking calls what is acquired and, separately, what is deferred, and how it ends |
| DebugContainer.Runtime.RunDebugContainer | pkg/agent/runtime.go:696-909 | the whole trace on every return path and panic; balanced exactly unless labelling the container panics |
| DebugContainer.ReplayCounts | pkg/agent/runtime.go:696-876 | in any trace that replays, acquisitions are releases plus what is still held |
| DebugContainer.ReplayReleases | pkg/agent/runtime.go:832-876 | releasing what was deferred in reverse order takes the innermost resources off and leaves the others |
| DebugContainer.SkippedIsOutOfTurn | pkg/agent/runtime.go:824-832 | a skipped innermost resource makes the next release one out of turn |
| DebugContainer.BalancedExactly | pkg/agent/runtime.go:696-909 | a run is a balanced bracket word if and only if labelling an acquired container does not panic |
| DebugContainer.ReleasedOnce | pkg/agent/runtime.go:696-909 | whatever is acquired is acquired once and released once, except a container whose labelling panics, which is never released |
| DebugContainer.TraceFields | pkg/agent/runtime.go:696-876 | for each of the four resources, by the outcome of each call, exactly when it is acquired and when it is released |
| DebugContainer.TraceInOrder | pkg/agent/runtime.go:696-876 | client, FIFO, container, task are acquired in this order and released in the reverse one at the end |
| DebugContainer.EndFields | pkg/agent/runtime.go:696-909 | exactly when a run succeeds and when it panics |
| DebugContainer.LabelsPanicExample | pkg/agent/runtime.go:824-842 | a fault script that leaves the container behind, with its trace |
| AuditCommand.BuildCommand | pkg/agent/runtime.go:756-762 | each shim element with every placeholder replaced, then the command unchanged |
| AuditCommand.ReplaceNone | pkg/agent/runtime.go:759 | without an occurrence nothing is replaced |
| AuditCommand.ReplaceFirst | pkg/agent/runtime.go:759 | the first occurrence is replaced and the search goes on behind it |
| AuditCommand.OccurrenceNeeds | pkg/agent/runtime.go:758-760 | a placeholder in a result, across borders of replacements included, takes a path that is not inert |
| AuditCommand.InertSuffices | pkg/agent/runtime.go:758-760 | with an inert path no placeholder is left |
| AuditCommand.InertNecessary | pkg/agent/runtime.go:758-760 | for any other path there is a shim element that keeps one |
| AuditCommand.PlaceholderGone | pkg/agent/runtime.go:758-760 | no shim element keeps a placeholder if and only if the path is inert |
| AuditCommand.PlaceholderLeftExample | pkg/agent/runtime.go:758-760 | a path with the placeholder inside, and a shim element that keeps it |
| AuditCommand.PathInert | pkg/agent/runtime.go:708-760 | a path whose ends share no character with the placeholder is inert if and only if it does not contain it |
| AuditCommand.DefaultFifo | pkg/agent/config.go:21-22 | the default FIFO path with a UUID filled in is inert |
| AuditCommand.DefaultTexts | pkg/agent/config.go:21-22 | the default path with the UUID filled in, and the default shim element replaced by it |

## Left out

- ScreenIsLog: the cursor is assumed to be at the start of a row with nothing but blanks below it when the stream begins, as for every screen theorem; texts are assumed to be free of control characters, one cell per character and not wider than the screen; wrapped lines, wide characters and window size changes during a run are not modelled.
- StreamWritesPaper: the same assumption on texts; every progress detail is taken to have a text, one value per message, although the program formats it twice and formatting can panic, which String describes and the stream theorems leave out.
- String: the terminal width and the clock are fixed during a call; an int has 64 bits; HumanSize and the formatting of durations are opaque functions; infinities do not occur, since all values come from 64-bit integers.
- CursorUp: the fallback sequences are used; terminfo lookup is not part of this model.
- Display: timestamps are opaque texts, and JSON decoding is an arbitrary sequence of messages with an arbitrary end.
- Safe: the branch for /dev/tty, which `Run` never asks for; asynchronous signals and process exit. interrupt.Chain is taken to run the function and then the clean-up once.
- Run: requests, URLs, secrets and messages to the user; a pod object stands for its kind and phase, a launched pod is running as the watch condition guarantees, and failing delete calls count as attempts. Its two waits are steps here; that they return is RunReturns.
- Prepare: container name defaulting, and the contents of the pods launched, which `ForkPod` covers for fork mode.
- NoDeadlock: `ForwardPorts` is its observable steps, and is taken to signal ready or fail some time; the remote stream and the connection may end at any time or never.
- RunReturns: schedules in which `ForwardPorts` fails after it was ready are covered by SafeExactly only.
- CopyAndStripPod: parts of a pod that the copy leaves alone are opaque texts; map and list values are values, so aliasing inside them is not modelled.
- OrderKept: delivery of the latest size is not claimed, since sends may drop it.
- Poll: the sleep between polls; termination after stop is not claimed, since a send may block for good.
- ShowProgress: key and digest of a job are an opaque text and its place in the list; timestamps, the table layout and the flushes of the writer are left out.
- ResultIsCopiersError: the copying itself and the half-close of the connection.
- RunDebugContainer: the goroutine that reads the audit FIFO, the label texts, spec options other than the command, and the time limits of the deferred calls; a deferred call counts as a release even if it fails or panics itself.
- Also left out, as wrappers, configuration cascades or short branches: Complete, Validate and the config loaders, the agent's HTTP server and runtime selection, image pulling around the progress table, the Docker runtime other than holdHijackedConnection, nsenter, lxcfs, registry secrets and resource quantities, and the Kubernetes, Docker and containerd clients.
