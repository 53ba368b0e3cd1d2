# Event log, dreams, schedules and guards: a verified model

This project models, in Dafny, the parts of the managed-agents platform whose
correctness is a matter of whole runs rather than of single calls, and proves
what their code and comments promise. `dafny verify dfyconfig.toml` checks it.

* **One send to a session** (`Rows`, `EventModel`, `SendLayout`, `LayoutUpdates`,
  `LayoutConservation`, `InputOrder`, `SendProgram`, `LayoutPlaces`, `ArmOrder`,
  `ArmTrace`, `ArmLeaves`, `AnswerWalk`, `AnswerTakes`, `SendArms`, `SendLeaves`,
  `LastIdle`). The layout a send builds is a
  class whose maps and slices its methods append to; `ProcessingOrder` lays it out in
  loops and is proved equal to a declarative order. That order is then proved to lose
  and double nothing and to put every posted event and every delivered notice at a
  place given in closed form. `SendArms` is the send from the posted events to the
  batch: each thread's arm found by `interruptAt` and `settledAt`, placed by
  `armOrder` and run in that order, with the status rows proved to stand in the batch
  in the order the arms ran. The answer plan is modelled too: its walk over the routed
  answers is proved valid for the layout and proved to leave each thread where the
  settlement of the same commit leaves it; `AnswerTakes` says which answers it takes,
  in what order, and where each denial's result goes. `SendLeaves` says of the whole
  send where every thread's rows, and every ended thread's notice, end up.
* **Answer stamps and the stream** (`StampClamp`, `EventTail`). The windowed clamp
  equals clamping the answers one by one for all stamps and NULLs, moves no answer
  further than it must, and orders the whole commit exactly under a stated condition. The stream's wakes, each against
  an appender that is free between any two queries, deliver every in-scope row
  once and in order.
* **Dreams** (`DreamLifecycle`, `DreamSafety`, `DreamOutcomes`, `DreamProgram`, `DreamFleet`). One
  dream between any number of replicas: the ten-arm decision table, the claim
  under a soft lease, the unlocked render, the guarded write, cancel, archive, file
  deletion and purge in any interleaving, with crashes. `DreamProgram` is the same in
  the statements the transactions run. `DreamOutcomes` says, of every reachable state,
  exactly when each thing happens to a dream.
* **Deployments** (`Scheduler`, `SchedulerSafety`, `SchedulerFires`, `CatchUp`). Fires
  at the level of row locks, the unique index and the savepoint; and the tick's clamped search,
  its skipped count and how fires and counts telescope.
* **Terraform guard** (`HclLexer`, `HclTemplate`, `HclScrub`, `HclBlocks`,
  `HclRoundTrip`, `HclForms`). A reference lexer with nested strings, templates and
  comments, the two scanners held to it, and the block reader, with every form it
  reads written out as text.
* **Firewall, files, agents, keys, memories** (`Firewall`; `FileObjects`,
  `FileSafety`, `FileOutcomes`; `AgentPins`, `AgentSafety`, `AgentOutcomes`;
  `PresetKeys`; `MemoryRetention`). The
  OUTPUT chain after every single command; file rows, stored objects and the
  delete queue under concurrent removers; agent archive against deployment pins;
  preset keys; retention.

Where the source updates an object or works through a loop, the model is a class
or a method with a loop, proved against a specification function. A protocol
between database transactions is a state machine: a `Step` function per action,
a `Run` over any list of actions, and an invariant proved of every reachable
state. A step whose guard fails leaves the state alone, which is also how a lock
timeout, a deadlock victim or a rollback appears.

One line is worth knowing about. The template scanner answers closed over
`${ 1 %%{ }`, which a lexer that read `%%` as two operators would leave open;
Terraform refuses such a file, so the guarantee stands (`HclTemplate.DoubledPercent`).

## Model

| member | source | states |
|---|---|---|
| `SendProgram.Send.constructor` | internal/api/events.go:1102-1140 | a fresh layout is valid, with every posted answer pending and nothing written |
| `SendProgram.Send.Plan` | internal/events/orderedtools.go:288-385 | recording one thread's walk keeps the layout valid and adds exactly the walk's denial results to what was written |
| `SendProgram.Send.Woke` | internal/api/events.go:1152-1158 | recording a wake keeps validity; an empty pair records nothing |
| `SendProgram.Send.Interrupted` | internal/api/events.go:1141-1151 | an interrupt's settled, idle, told and resume rows are all recorded, once, and validity is kept |
| `SendProgram.Send.SettledAt` | internal/api/events.go:1164-1187 | a settlement is processed at the last place its walk fills, behind everything consumed on receipt when it fills none |
| `SendProgram.Send.Reidled` | internal/api/events.go:1188-1199 | a re-park pair is recorded at its settlement's place and validity is kept |
| `SendProgram.Send.Resumed` | internal/api/events.go:1200-1210 | resuming moves the thread's denials from their steps to the wake: nothing is gained or lost |
| `SendProgram.Send.ProcessingOrder` | internal/api/events.go:1211-1321 | the loops produce the declarative order, and its rows as a multiset are the posted events plus every row handed to the layout |
| `LayoutConservation.OrderConserves` | internal/api/events.go:1255-1321 | for every valid layout each row occurs in the order exactly as often as it was posted and written |
| `LayoutUpdates.InterruptedWritten` | internal/api/events.go:1141-1151 | an interrupt adds exactly the rows its arm left: settled, idle, told with its wake, and resume |
| `LayoutUpdates.ResumedWritten` | internal/api/events.go:1200-1210 | what `resumed` moves is counted the same before and after, with the pair added |
| `InputOrder.StableByCause` | internal/api/events.go:1263-1300 | the stable sort by cause lists the causes in turn, each cause's rows as they came |
| `InputOrder.SortedInputs` | internal/api/events.go:1263-1300 | sorting posted and then delivered input lists each row at the event that caused it |
| `LayoutPlaces.Placed` | internal/api/events.go:1211-1321 | every posted event and every delivered row stands at a place given in closed form |
| `LayoutPlaces.InterruptPlace` | internal/api/events.go:1211-1321 | a posted interrupt is immediately preceded by its settled rows and followed by its idle pairs |
| `LayoutPlaces.AnswerPlace` | internal/api/events.go:1211-1321 | a walked answer is followed by its denials and its thread's re-park, in the slot its rank gives |
| `LayoutPlaces.WalkOrder` | internal/api/events.go:1211-1321 | a thread's j-th walked answer stands in the j-th place, by receipt, that its answers were received in, so they read in walk order |
| `LayoutPlaces.WalkFills` | internal/api/events.go:1220-1227 | the places a thread's walk fills are exactly the places its walked answers were received in |
| `LayoutPlaces.LateParkPlace` | internal/api/events.go:1226-1230 | the re-park of a settlement that processes no answer stands behind everything consumed on receipt |
| `LayoutPlaces.WakePlace` | internal/api/events.go:1231-1244 | a wake is its running pair, what the send wrote for its turn, then its thread's input, contiguously, the wakes in the order woken |
| `LayoutPlaces.PlaceByWake` | internal/api/events.go:1231-1244 | input to a woken thread, posted or delivered, follows that thread's first running pair and consumed rows, whichever arm made the wake |
| `LayoutPlaces.PlaceAtTail` | internal/api/events.go:1245-1252 | pending answers, and input or notices to a thread not woken, stand behind every wake |
| `LayoutPlaces.OrderOfTwo` | internal/api/events.go:1211-1321 | which of any two posted events or delivered rows comes first: input by what caused it, a posted event ahead of the rows it delivered, those in delivery order |
| `LayoutPlaces.TotalOrder` | internal/api/events.go:1211-1321 | any two posted events or delivered rows are ordered one way or the other |
| `ArmOrder.InterruptAt` | internal/api/events.go:437-470 | the first received interrupt reaching a thread, by name or session-wide |
| `ArmOrder.RunSend` | internal/api/events.go:504-660 | the arms run in place order on the layout object and the output is the order of the layout they leave |
| `ArmTrace.ArmsAgree` | internal/api/events.go:1164-1321 | for any valid arms in place order, idle and re-park rows, then running rows, appear in the output in the order their arms ran |
| `SendArms.WalkThreads` | internal/api/events.go:470-491 | each settling thread is walked before any arm runs, and its settlement's place kept is its place in the final plan |
| `SendArms.PlaceArms` | internal/api/events.go:504-515 | each thread's arm stands at its first reaching interrupt, else its settlement, else ahead of everything for the primary, else behind everything |
| `SendArms.ArmsAreValid` | internal/api/events.go:437-516 | the arms so placed are valid for the layout and, sorted, a valid run |
| `SendArms.SendAgrees` | internal/api/events.go:437-660 | for every mix of named and session-wide interrupts, settlements and messages, the status rows stand in the batch in the order armOrder ran the arms |
| `SendArms.SendSessionEvents` | internal/api/events.go:437-690 | walks, arms and layout in the code's order produce the batch the theorems are about |
| `SendLeaves.ArmStandsAt` | internal/api/events.go:504-515 | of the posted events alone: an arm stands at the first interrupt hitting its thread, else at the last answer its walk takes, else ahead of all for the primary, else behind all |
| `SendLeaves.ArmsRunInOrder` | internal/api/events.go:504-517 | the arms run in place order, those of one place as their threads were listed |
| `ArmLeaves.RunFiles` | internal/api/events.go:1141-1199 | over any valid run of arms, each row is filed under its own arm's place: settled and idle rows at its interrupt, its notice under that interrupt, a re-park at its settlement |
| `ArmLeaves.RunWakes` | internal/api/events.go:1152-1210 | the wakes are those of the arms in the order run, each naming the thread it woke and carrying what its resume consumes |
| `ArmLeaves.RunWrites` | internal/api/events.go:1141-1210 | the arms write each row exactly as often as it was handed to them |
| `SendLeaves.ThreadsLeft` | internal/api/events.go:437-660 | whatever else a send carries, the layout it leaves holds each thread's rows, notice and wakes where that thread's own input says |
| `SendLeaves.NoticeStands` | internal/api/events.go:1146-1244 | an ended thread's notice stands in the batch behind every input to its reader received ahead of the interrupt that ended it and ahead of every one received behind |
| `SendLeaves.OnlyTheirNotices` | internal/api/events.go:1141-1151 | the layout holds no delivered row but an ended thread's notice, each under the first interrupt hitting that thread |
| `SendLeaves.SendConserves` | internal/api/events.go:437-690 | the batch holds every posted event and every row handed over for a live thread, each exactly as often |
| `SendLeaves.PrimaryWakesFirst` | internal/api/events.go:504-515 | a primary woken by a message has the first running pair of the batch |
| `SendArms.CallsWalkWell` | internal/events/orderedtools.go:320-385 | a thread's walk consumes distinct posted answers of its own thread, as the arms need |
| `AnswerWalk.WalksAgree` | internal/events/orderedtools.go:177-270 | the settlement's walk, without the denied calls, ends where the plan's walk does |
| `AnswerWalk.PlanMatchesSettlement` | internal/events/orderedtools.go:288-385 | the planned flow is the flow the settlement of the same commit reads off the log |
| `AnswerWalk.WalkIsValid` | internal/events/orderedtools.go:320-385 | over answers routed to their calls' threads, a walk's steps name distinct, posted, until then pending answers of its thread |
| `AnswerWalk.MergedReads` | internal/events/route.go:57-90 | what a thread's calls read of the posted answers was posted on that thread |
| `AnswerTakes.ReceivedAre` | internal/events/orderedtools.go:330-348 | a planned call holds the answers it had, else the first posted result and first posted confirmation naming it, and nothing else of it moves |
| `AnswerTakes.ReachIs` | internal/events/orderedtools.go:219-238 | the walk reaches a call exactly when it and every earlier one is handed over and every earlier one is resolved by a result or a denial |
| `AnswerTakes.PlanTakes` | internal/events/orderedtools.go:349-356 | the steps name exactly the pending answers some reached call reads, in call order, a call's confirmation ahead of its result |
| `AnswerTakes.DenialsPlaced` | internal/events/orderedtools.go:357-373 | a denial's result stands on the last step named up to its call; the denied are exactly the reached calls a denial resolves at or behind the first step |
| `AnswerTakes.MarksAre` | internal/events/orderedtools.go:177-212 | what both walks mark: reached calls confirmed and resolved by what they hold, the rest untouched |
| `AnswerTakes.FlowIs` | internal/events/orderedtools.go:131-149 | the flow lists the unresolved calls waiting on a human or an outside result, in order, and is runnable exactly when the first unresolved call is the platform's |
| `LastIdle.KeepLastSessionIdle` | internal/api/events.go:1324-1350 | every other row stays in order; of the idles only the last, in place, restated only if all were |
| `StampClamp.ClampInOnePass` | internal/api/events.go:773-800 | the two windows grown row by row give each answer its floor and ceiling |
| `StampClamp.OnePassIsOneByOne` | internal/api/events.go:760-768 | for all stamps and NULLs, one pass equals clamping one by one in list order |
| `StampClamp.LeastMove` | internal/api/events.go:759-800 | an answer moves no further than it must: kept inside its slot, else the smallest stamp behind when that is below it or below a row ahead, else the largest stamp ahead |
| `StampClamp.OrderedIsKept` | internal/api/events.go:759-800 | a commit already in order is left as it is |
| `StampClamp.AnswersEndOrdered` | internal/api/events.go:755-768 | the answers end mutually ordered whatever the stamps |
| `StampClamp.OrderedExactly` | internal/api/events.go:751-800 | the whole list ends ordered if and only if the other rows are and no answer settled before a row an earlier answer is listed behind |
| `StampClamp.OrderedAfterSettlement` | internal/api/events.go:751-768 | if no answer's raw stamp precedes a row listed ahead of it, the whole list ends ordered |
| `EventTail.Stream.constructor` | internal/api/events.go:1751-1757 | the stream starts at the log's high-water mark with nothing written |
| `EventTail.Stream.Wake` | internal/api/events.go:1850-1896 | a wake over a growing log keeps written equal to the in-scope rows up to the position; a finished one reaches the mark it read, and an unfinished one has written full pages only |
| `EventTail.MarkSkipsNothing` | internal/api/events.go:1854-1896 | behind a short page, advancing to the mark read before it skips no in-scope row |
| `EventTail.Follow` | internal/api/events.go:1751-1896 | over any wakes the client holds exactly the in-scope rows past the start, once each, in seq order |
| `EventTail.BetweenIsExactlyOnce` | internal/api/events.go:1850-1896 | what is kept between two positions is every in-scope row there and nothing else |
| `DreamSafety.StepKeeps` | internal/api/dreamrunner.go:463-825 | every step of every actor keeps the dream's invariant and undoes nothing committed |
| `DreamSafety.CommitsBounded` | internal/api/dreamrunner.go:463-825 | claims equal attempts and are at most five, one start, one advance per later stage, one settle, one close, within attempts + 1 + 3 + 1 + 1 |
| `DreamSafety.ClaimsLeaseApart` | internal/api/dreamrunner.go:421-432 | the history is claims, start, stages, settle, close; successive claims are a lease apart on the database clock |
| `DreamSafety.RunningIsWhole` | internal/api/dreamstart.go:295-380 | a running dream has one output and a stage of 1 to 4, and its session with messages 1 to its stage exactly unless the database lost it |
| `DreamSafety.EndsStay` | internal/api/dreams.go:548-628 | terminal is absorbing, closed is terminal, final and silent |
| `DreamSafety.TranscriptsWhileOpen` | internal/api/dreamstart.go:355-362 | the transcript rows, all of them, exist exactly from the start's commit to the close's, file deletes and purges notwithstanding |
| `DreamSafety.CompletesOnlyFinished` | internal/api/dreamrunner.go:537-571 | completion only from stage 4, idle, in budget, with no ask, failed turn or secret, after messages 1 to 4 |
| `DreamSafety.CorruptionUnreachable` | internal/api/dreamrunner.go:537-549 | the out-of-range stage is never reached |
| `DreamSafety.TwoArmsClose` | internal/api/dreamrunner.go:641-825 | past budget and lease, any open dream is closed by two arms once its session stops |
| `DreamOutcomes.AdvancesExactly` | internal/api/dreamrunner.go:493-612 | over reachable states a started dream's stage rises exactly by an arm that finds it in budget, its turn ended well within its turns, nothing asked or unavailable, and the session idle and answered; by one, with its message |
| `DreamOutcomes.CompletesExactly` | internal/api/dreamrunner.go:537-571 | completed exactly by such an arm at the last stage with no secret written |
| `DreamOutcomes.FailsExactly` | internal/api/dreamrunner.go:470-571 | an arm fails a running dream exactly for a listed fault or a lost session, stops its session, and closes it only without one |
| `DreamOutcomes.WaitsOtherwise` | internal/api/dreamrunner.go:537-571 | any other arm on a running dream leaves it where it is |
| `DreamOutcomes.ClaimsExactly` | internal/api/dreamrunner.go:763-775 | a claim is made exactly on a pending dream in budget with no lease running and an attempt left |
| `DreamOutcomes.StartsExactly` | internal/api/dreamstart.go:136-380 | a dream starts exactly when a claimant's write commits over a pending row, with session, first message, output and transcripts |
| `DreamOutcomes.FailsUnstartedExactly` | internal/api/dreamstart.go:136-202 | a dream that never started fails exactly on budget, attempts, a classified refusal or its last attempt's error, and closes with it |
| `DreamOutcomes.ErrorSpentExactly` | internal/api/dreamstart.go:182-202 | a claimant's error is spent exactly on the last attempt; a death or a lost race leaves the dream to the next claim |
| `DreamOutcomes.CanceledExactly` | internal/api/dreams.go:570-628 | canceled exactly by a cancel of an open dream; pending closes with it, a running one's session is told to stop |
| `DreamOutcomes.ClosesExactly` | internal/api/dreamrunner.go:641-720 | an ended dream closes exactly by an arm that finds no working session, which ends archived |
| `DreamOutcomes.StillWorking` | internal/api/dreamrunner.go:641-720 | while the session works the closing arm only tells it to stop again |
| `DreamOutcomes.ArchivedExactly` | internal/api/dreams.go:548-569 | archived exactly by an archive of a terminal dream not archived yet |
| `DreamOutcomes.OpenTranscriptsRefused` | internal/api/files.go:517-552 | a delete is approved exactly for a file that is no open dream's transcript, and a purge takes none of those |
| `DreamProgram.DreamRows.constructor` | internal/api/dreams.go:204-221 | a created dream is pending with nothing committed |
| `DreamProgram.DreamRows.Arm` | internal/api/dreamrunner.go:421-571 | one transaction takes the first matching arm of the table and keeps the invariant |
| `DreamProgram.DreamRows.ClosingArm` | internal/api/dreamrunner.go:641-720 | while the session works nothing closes and no transcript goes; otherwise the dream closes, transcripts gone and session archived; the invariant is kept |
| `DreamProgram.DreamRows.ClaimArm` | internal/api/dreamrunner.go:763-775 | attempts never pass five: a claim is one more in flight, a sixth is a failure; the invariant, leases included, is kept |
| `DreamProgram.DreamRows.Fail` | internal/api/dreamrunner.go:780-794 | failed, closed at once exactly without a session, a live session left where its interrupt leaves it; the invariant is kept |
| `DreamProgram.DreamRows.Settle` | internal/api/dreamrunner.go:801-825 | without a session the settling commit closes and takes the transcripts, with one neither moves; the invariant is kept |
| `DreamProgram.DreamRows.AdvanceArm` | internal/api/dreamrunner.go:577-612 | the stage moves only with its message, by one, on an idle session; otherwise nothing moves or the dream fails; the invariant is kept |
| `DreamProgram.DreamRows.FinishStart` | internal/api/dreamstart.go:136-180 | a start commits only over a pending row; everything else leaves no trace but a classified failure |
| `DreamProgram.DreamRows.SettleExhausted` | internal/api/dreamstart.go:182-202 | the last attempt's error settles only a pending dream |
| `DreamProgram.DreamRows.Cancel` | internal/api/dreams.go:570-628 | cancel closes a pending dream, settles a running one, repeats harmlessly and refuses the rest |
| `DreamProgram.DreamRows.Archive` | internal/api/dreams.go:548-569 | archive is once, terminal only, and moves no status |
| `DreamFleet.OneHolder` | internal/api/dreams.go:204-221 | over any run of all dreams at most one unclosed in-place dream holds a store |
| `DreamFleet.HeldUntilClosed` | internal/api/dreams.go:204-221 | over any later run of all dreams a held store has the same one holder until that dream closes |
| `DreamFleet.CreatesExactly` | internal/api/dreams.go:204-221 | a create is refused exactly in place on a store some unclosed dream holds; what it adds is pending and empty, holds only in place, and no other dream moves |
| `SchedulerSafety.StepKeeps` | internal/api/deploymentscheduler.go:428-574 | every lock-level step keeps the fires', inserts' and runs' invariant |
| `SchedulerSafety.RunsAreSound` | internal/api/deploymentscheduler.go:428-574 | one run per occurrence, exactly one of session and error, sessions and succeeded runs one to one, each scheduled run against a live, unpaused, unchanged deployment past its floor |
| `SchedulerSafety.CommitKeeps` | internal/api/deploymentruns.go:68-188 | the settled run, its session and the auto-pause commit together |
| `SchedulerSafety.NothingAfterArchive` | internal/api/deployments.go:704-735 | an archived deployment's runs never change |
| `SchedulerSafety.NotBackfilled` | internal/api/deployments.go:776-800 | until the next unpause, whatever commits fell due behind the stored resume floor |
| `SchedulerFires.UnpauseForgets` | internal/api/deployments.go:744-800 | after an unpause of a paused deployment, over any run without another, every new scheduled run fell due after the unpause |
| `SchedulerFires.RoutesWrite` | internal/api/deployments.go:704-800 | each route writes its own columns of its own row: only an unpause of a paused deployment moves the floor, and one of a running deployment changes nothing |
| `SchedulerFires.RoutesWait` | internal/api/deployments.go:704-800 | no route writes an archived row or one a fire shares |
| `SchedulerFires.NewDeploymentForgets` | internal/api/deploymentscheduler.go:428-574 | a new deployment never fires what predates it |
| `SchedulerFires.PausedFiresNothing` | internal/api/deploymentscheduler.go:428-574 | while a deployment is paused only manual runs are added to it, over any run |
| `SchedulerFires.OldScheduleFiresNothing` | internal/api/deploymentscheduler.go:428-574 | until the next update every new scheduled run is of the stored schedule |
| `SchedulerFires.FireGoesThrough` | internal/api/deploymentscheduler.go:428-574 | a fire that meets no refusal commits exactly its run, its session and nothing else, manual or scheduled |
| `SchedulerFires.RefusedFireSettles` | internal/api/deploymentruns.go:68-188 | a refused session create commits the run with its error and no session, and pauses exactly for a scheduled run's pausing error |
| `SchedulerFires.StaleOpensNothing` | internal/api/deploymentscheduler.go:428-574 | an archived, paused, rescheduled or not yet resumed candidate opens nothing |
| `SchedulerFires.SecondClaimLoses` | internal/api/deploymentscheduler.go:428-574 | of two open fires for one occurrence the second claims nothing |
| `CatchUp.DueIs` | internal/cron/cron.go:80-95 | the due list is every occurrence in the half-open interval, ascending |
| `CatchUp.ClampedSearch` | internal/api/deploymentscheduler.go:265-288 | the clamped search finds the unclamped one's occurrence inside the window and none otherwise |
| `CatchUp.OccurrencesSkipped` | internal/api/deploymentscheduler.go:353-370 | the exact number passed over, or the cap |
| `CatchUp.Decide` | internal/api/deploymentscheduler.go:251-303 | one row's clamped computation is the promised fire |
| `CatchUp.Tick` | internal/api/deploymentscheduler.go:217-308 | the sweep fires every row's promised occurrence; an unreadable schedule costs only its own row |
| `CatchUp.FiresLatest` | internal/api/deploymentscheduler.go:251-303 | a row fires the latest occurrence past its floor and watermark, due and inside the window, and nothing exactly when there is none |
| `CatchUp.BetweenCounts` | internal/api/deploymentscheduler.go:353-370 | the count of occurrences passed over is the number of them strictly between the floor and the fire |
| `CatchUp.FiresAre` | internal/api/deploymentscheduler.go:217-308 | the tick fires exactly what some scanned row is due |
| `CatchUp.FiresApart` | internal/api/deploymentscheduler.go:279-288 | the fires of a scan are the fires of its parts: no row changes another's |
| `CatchUp.FiresTelescope` | internal/api/deploymentscheduler.go:251-303 | committed fires plus skipped counts equal the occurrences up to the last fire, unless a count saturated, and never exceed them |
| `CatchUp.SmallBacklogExact` | internal/api/deploymentscheduler.go:294-301 | with at most a thousand and one occurrences since the resume no count saturates, and fires plus counts are exact for any ticks |
| `HclTemplate.PlainString` | deploy/gcp/check_split.py:224-246 | where a plain string ends; -1 only for one holding a template or left open |
| `HclTemplate.OpenTemplate` | deploy/gcp/check_split.py:249-303 | closed is answered only over lines the lexer closes or Terraform refuses; open exactly when something is left open or a string held a template |
| `HclTemplate.DoubledPercent` | deploy/gcp/check_split.py:271-275 | the line on which skipping `%%{` in an expression matters: the scanner answers closed, a lexer reading on would not, Terraform refuses it |
| `HclScrub.ScrubLine` | deploy/gcp/check_split.py:306-475 | the loop computes the scrubbed text and code length, or refuses |
| `HclScrub.ScrubKeepsStructure` | deploy/gcp/check_split.py:306-475 | an accepted line keeps outside its quotes exactly the structure the lexer reads, up to where its comment starts, and between them nothing that could be structure |
| `HclForms.ScrubAccepts` | deploy/gcp/check_split.py:306-475 | a line whose strings close on it and hold no template is refused only for a block comment |
| `HclForms.TemplateAccepts` | deploy/gcp/check_split.py:306-475 | nor is a line of one string, templates included, that the lexer closes |
| `HclForms.LoneReturnRefused` | deploy/gcp/check_split.py:590-607 | a lone return ahead of the line's comment refuses the line, behind a backslash as well |
| `HclScrub.ScrubKeepsBalance` | deploy/gcp/check_split.py:306-475 | so its braces balance as those outside strings and comments do, and its quotes pair up |
| `HclBlocks.Strip` | deploy/gcp/check_split.py:518-683 | the first pass, line numbers kept: refusals, heredoc openers, bodies and terminators |
| `HclForms.OpensExactly` | deploy/gcp/check_split.py:622-677 | a line opens a heredoc exactly when its scrubbed text ends in its first `<<`, an optional dash and a tag, clean and with no comment behind |
| `HclForms.PlainExactly` | deploy/gcp/check_split.py:606-677 | a line is kept as structure exactly when its scrubbed text is clean and holds no `<<` |
| `HclForms.TerminatesExactly` | deploy/gcp/check_split.py:551-571 | a heredoc ends exactly at its tag alone, padded by whitespace other than the four separators |
| `HclForms.HeredocReads` | deploy/gcp/check_split.py:518-683 | a heredoc leaves the text ahead of its opener and one empty line for each of its others, reading on behind a terminator that is not the last line; a bad body line refuses the file |
| `HclForms.UnendedRefused` | deploy/gcp/check_split.py:679-684 | a heredoc never terminated is refused |
| `HclBlocks.Split` | deploy/gcp/check_split.py:685-718 | the second pass's loop computes the split |
| `HclForms.HeaderExactly` | deploy/gcp/check_split.py:101-102 | a line is a resource or module header exactly when it is made of its keyword and quoted, non-empty names, with whitespace between |
| `HclForms.SplitAccepts` | deploy/gcp/check_split.py:685-718 | lines whose depth never falls below 0 are split exactly when it ends at 0 |
| `HclBlocks.Blocks` | deploy/gcp/check_split.py:478-718 | both passes |
| `HclRoundTrip.NoHeaderUnread` | deploy/gcp/check_split.py:685-718 | over accepted lines whose depth stays at or above 0, every header at depth 0 is reported, in order, with exactly the lines inside it |
| `HclRoundTrip.StripConcat` | deploy/gcp/check_split.py:518-683 | an accepted run of lines reads the same whatever follows it |
| `HclRoundTrip.PrintedBlocksReadBack` | deploy/gcp/check_split.py:478-718 | printing any well-formed blocks, heredocs included, and reading the file returns their headers and scrubbed bodies |
| `Firewall.OutputChain.constructor` | cmd/gate/firewall.go:79-86 | a chain starts as listed, with no command issued |
| `Firewall.OutputChain.DeleteDuplicates` | cmd/gate/firewall.go:100-106 | numbered deletes, highest first, remove every duplicate and nothing else |
| `Firewall.OutputChain.EnsureJumpFirst` | cmd/gate/firewall.go:79-107 | one jump first, foreign rules in order; after every command the foreign rules are intact and rule 1 is the jump, but for a first insert that failed; never without a jump it had; a reconciled chain gets no command |
| `FileSafety.FilesStaySafe` | internal/store/migrations/0046_files_object_key.sql:246-268 | over every interleaving no named object is queued or missing and none is stored unowned |
| `FileSafety.SkippedStaysNamed` | internal/store/migrations/0046_files_object_key.sql:68-75 | while one remover has found a key still named, no other can take its last other row |
| `FileSafety.LastRowQueuedAtOnce` | internal/api/files.go:553-579 | the commit that takes a key's last row queues it; no other step unnames a key |
| `FileSafety.CommitRemoveKeeps` | internal/api/fileretention.go:241-291 | a remover's commit, sweep or dream close alike, keeps the invariant |
| `FileSafety.CommitMintKeeps` | internal/api/sessionresources.go:1149-1163 | a copy minted under its source's shared lock names no key about to be queued |
| `FileOutcomes.UploadStores` | internal/api/files.go:164-224 | an upload ends as a row owning its stored object; a discarded one leaves neither |
| `FileOutcomes.CopyNames` | internal/api/sessionresources.go:1149-1163 | a copy is a row of its own naming its source's object; a source being removed yields none |
| `FileOutcomes.RemovalQueues` | internal/api/files.go:553-579 | deleting a row takes it and queues its object exactly when no other row names it |
| `FileOutcomes.DrainDeletes` | internal/api/objectdeletes.go:188-255 | a queued object is deleted and then forgotten; one not queued is never touched |
| `AgentSafety.LivePinsLive` | internal/api/agents.go:717-820 | over every interleaving a live deployment pins a live agent at a version it has |
| `AgentSafety.CommitArchive` | internal/api/agents.go:751-820 | an archive that counted no pin under its lock leaves none |
| `AgentSafety.CommitUpdate` | internal/api/deployments.go:601-610 | an update repins only what it resolved under a shared lock, and without an agent changes no pin |
| `AgentSafety.ResolveIsGood` | internal/api/deploymentparse.go:145-246 | a resolved pin is a live agent nobody is archiving, at an existing version |
| `AgentOutcomes.ResolvesExactly` | internal/api/deploymentparse.go:145-246 | a pin resolves exactly to the version named, or the newest for none, of a live agent nobody is archiving |
| `AgentOutcomes.CreatePins` | internal/api/deployments.go:300-331 | a create stores exactly the pin its body resolves to; anything else is refused |
| `AgentOutcomes.UpdateRepins` | internal/api/deployments.go:601-610 | an update with an agent repins to what it names; one without leaves the pin |
| `AgentOutcomes.AgentArchivedExactly` | internal/api/agents.go:753-820 | an agent nobody holds is archived exactly when no live deployment pins it |
| `AgentOutcomes.RowsMove` | internal/api/agents.go:345-510 | an agent's version goes up by one, and only from the version its caller read |
| `PresetKeys.OneLivePerName` | internal/api/auth.go:79-199 | over any run each name has at most one active unissued key |
| `PresetKeys.BootConfigures` | cmd/controlplane/main.go:205-228 | every boot the two checks let through leaves both values working under their names, adopted rows included, and no other unissued key live under either |
| `PresetKeys.PresetsConfigure` | internal/apikey/apikey.go:55-69 | the boot check's demand that the two values differ is exactly what the two adoptions need |
| `PresetKeys.BootLasts` | internal/api/auth.go:79-166 | after any run, and through any console calls behind it, the last boot's keys are the ones that work |
| `PresetKeys.RotationExactly` | internal/api/auth.go:122-170 | a rotation archives every other active unissued key of its name, touches nothing else, and leaves the value active, unissued and without expiry |
| `PresetKeys.RetirementExactly` | internal/api/auth.go:178-202 | a retirement archives exactly the active unissued keys of its name |
| `PresetKeys.IssueExactly` | internal/api/apikeys.go:104-150 | an issued key is new, active and its issuer's; an existing value is never reissued |
| `PresetKeys.OwnedStays` | internal/apikey/presets.go:12-34 | no boot takes over a principal's key |
| `PresetKeys.ConsoleKeepsOut` | internal/api/consoleapikeys.go:318-418 | a console call leaves unissued and archived keys alone and can only archive a lapsed one |
| `PresetKeys.PatchExactly` | internal/api/consoleapikeys.go:318-418 | a patch goes through exactly on an issued, unarchived key not lapsed, or to archive a lapsed one, and writes what it says |
| `PresetKeys.ConsoleNeverRevives` | internal/api/consoleapikeys.go:318-418 | nor does any run of console calls |
| `MemoryRetention.PruneExactly` | internal/api/memoryretention.go:130-147 | heads and each lineage's newest min(keep, size) stay; of the rest exactly what is past the window goes |
| `MemoryRetention.PrunesCompose` | internal/api/memoryretention.go:130-147 | an earlier sweep changes nothing a later one does; a second at one instant does nothing |
| `MemoryRetention.SweepsAreTheLast` | internal/api/memoryretention.go:130-147 | with nothing written between them, any sweeps equal the last alone |

## Left out

- HTTP decoding, JSON shapes, error wording, metrics, tracing and logs: plumbing around the modelled decisions.
- Database transactions are atomic or lock-level steps over values; the dream's are also given as updates in place, the scheduler's, agents', keys' and files' are not.
- Thread transitions, interrupt settlement and thread-end delivery (`TransitionThread`, `interruptThreadInTx`): the rows they hand the layout are data, with no assumption on their contents.
- An answer plan takes at most one result and one confirmation per call, which is what the event checks ahead of it admit, and no call has read an id minted at this send.
- Posted event ids, file ids and session ids are taken to be fresh, as minted; key hashes are taken not to collide.
- The preview tracker, the session-deleted frame and the drained broadcast frames of the stream.
- A session log that is deleted under a stream; the model's log only grows.
- DreamSafety.ClaimsLeaseApart: takes the database clock not to step back between a sweep's reading and its transaction's start.
- DreamSafety.TwoArmsClose: says nothing of a session no interrupt stops; the close then waits, as the arm does.
- Dream prompts, usage mirroring, store cloning in batches, rendering, and object I/O of a start.
- The connection budget and concurrency limits of the sweeps, and the candidate scans' ordering.
- Cron expressions, time zones and the generator's search bound: a schedule is any strictly increasing list of instants.
- Commit order of scheduled runs: a stale scan may commit an earlier occurrence after a later one, and no order is claimed.
- A commit whose outcome the client never learns, and real lock timeouts: a commit is definite and a timeout is a step not taken.
- HclScrub.ScrubKeepsBalance: excludes a line with a block comment left open inside a template, where the scrubber reads on, and lines Terraform refuses.
- HclScrub.ScrubKeepsStructure: has the same two exceptions.
- HclForms.TemplateAccepts: covers lines with at most two quote characters; a string inside a template is refused, as the scrubber means it to be.
- HclRoundTrip.NoHeaderUnread: restricted to files whose brace depth never falls below 0; below that the reader's count restarts at a block's end.
- Bytes that are not UTF-8, and the byte-order mark dropped at decoding; the module rules built on the blocks.
- A concurrent change of the OUTPUT chain between its listing and a numbered delete, which the source leaves to the check that follows.
- Session deletes' tombstone trigger and the previous build's guard in migration 0046; a session delete is one more remover.
- Deadlock freedom of the advisory locks: two removers that would wait for each other are both simply not advanced.
- PresetKeys.OneLivePerName: takes each boot as one atomic transaction; of two boots racing with different values the unique index fails one, which is then a step not taken.
- Memory writes between prunes, and the versions' content.
