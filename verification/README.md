# Verified model of the planner

The repository is a Telegram planner whose hard part is a set of durable,
crash-tolerant protocols, a few string and calendar algorithms and the life of
reminders and recurring tasks. This project models these parts in Dafny 4.11 and
proves what they promise. `dafny verify dfyconfig.toml` checks all of it.

What changes in place in the program is a class here: the journal and the port of
the maintenance protocol, the rows of the outbox, the database and the borrowed
sessions of planned commands, the HTML chunker, the reminder and task rows, the
whitelist host, the conversation histories, the rate limiter. Their methods are
proved equal to transaction functions, or against invariants, and the promises are
lemmas about these. A call that may fail returns an `Outcome`: it returned, it
raised, or the process died in it. A durable write may have taken place although
it raised. Committed transactions are atomic steps; sends, commits and crashes are
steps of their own, in every order.

That something succeeds is promised too. The hosts of the maintenance protocol, of
planned commands and of the privacy deletion count, in a ghost field
`disturbances`, every effect outside that goes wrong and every check that meets a
mismatch outside; a method whose contract says `Explains(success)` succeeds unless
that count has grown.

| Files | What they model |
|---|---|
| `Outcomes`, `Common` | fallible calls and small shared facts |
| `Maintenance`, `MaintenancePort`, `MaintenanceProtocol` | the journaled deploy and restore protocol and its concrete port |
| `Delivery`, `DeliveryProofs`, `DeliveryProgress` | the leased outbox |
| `CommandExecution`, `CommandPlans`, `CommandSessions` | durable action plans and command transactions |
| `Formatters`, `FormatterProofs`, `HtmlSplitter`, `HtmlCuts`, `PlainSplitter` | message splitting |
| `DumpFilter`, `DumpFilterProofs` | the streaming filter over database dumps |
| `Calendar`, `Recurrence` | the Gregorian calendar (ISO 8601:2004, sections 3.2.1 and 3.2.2) and repeat rules |
| `Reminders`, `Tasks` | the transactions on reminder and task rows |
| `Lifecycle`, `LifecycleProofs`, `ReminderEdits`, `DueProofs`, `SeriesProofs`, `SeriesFate`, `DeliveryBound`, `TaskProofs`, `TaskEdits`, `SuccessorProofs` | every run of these transactions and what it keeps |
| `PlannerRows`, `ReminderWorker` | the same transactions as code, and the delivery worker among others |
| `UserDeletion` | the crash-resumable privacy deletion |
| `Conversation`, `RateLimit` | the bounded history and the sliding window |

## What the proofs found

- Maintenance: a run that succeeds and then fails to close its port is reported as
  failed although the service runs. Among failing runs that entered the part
  guarded by the handler and whose last halt did not fail, exactly these leave it
  running (`MaintenanceProtocol.Process`).
- HTML splitting: the code calls the fallback a case of markup that consumes the
  entire chunk budget (bot/formatters/__init__.py:42-43). In fact it is taken
  exactly when some token leaves a chunk that cannot be closed within the limit
  (`FormatterProofs.FallbackExactly`, `FallbackByToken`), and an opening tag is
  accepted without room for its own closing tag, so text that ends near the edge of
  a chunk loses all markup (`FormatterProofs.FallbackAtAnEdge`).
- Dump filter: with a preamble line over 256 bytes the output depends on how the
  stream is cut; `DumpFilterProofs.ChunkingIsIrrelevantExactly` says when, and
  `LongCommentDefeats` and `LongCommentsExist` give the streams.
- Reminders: two calls that the program never makes would fork a recurring series
  (`SeriesProofs.StepForksExactly`, with `UpsertCanFork` and `FailureCanFork`).
- Reminders: a recurring series is lost, without any crash, when the user presses
  "Done" on a delivered message before the worker has recorded the delivery: the
  row is resolved without a successor, and the worker then finds it sent
  (bot/handlers/callbacks.py:168, bot/db/crud/reminders.py:88-89 and 179-181).
  `SeriesFate.SeriesLivesExactly` says that a resolution of the carrying row is the
  only end, `QuickAnswerLosesTheSeries` that this is one, and `FirstReminderIsLost`
  starts it from empty tables.
- Reminders: a snooze in the same moment, or of a reminder that failed, moves the
  whole series and not only this occurrence (`SeriesFate.SnoozeMovesTheSeries`);
  otherwise a series keeps to its calendar (`SeriesFate.SeriesKeepsItsOrbit`).
- Requests: a reservation holds for five minutes against everything but finishing
  the request as failed, which frees it at once
  (`CommandExecution.ReservationIsExclusive`, `FailedRequestIsFree`).
- Recurrence: `every:Nm` drifts exactly when it meets a shorter month on the way,
  and never up to the 28th (`Recurrence.EveryMonthsDriftsExactly`,
  `Recurrence.EarlyDaysNeverDrift`), as from the 31st of January
  (`Recurrence.EveryMonthDrifts`); `monthly:N` never does.
- Tasks: reopening a closed recurring task is refused as long as nobody clears its
  rule (`TaskProofs.RecurringStaysClosed`), and clearing it gets around the refusal
  (`TaskProofs.ClearingTheRuleReopens`).
- Deletion: the whitelist is written without repetitions, so a list with duplicates
  stops a resumed deletion (`UserDeletion.ResumesExactly`).

## Model

| member | source | states |
|---|---|---|
| `MaintenanceProtocol.Operate` | bot/operations/maintenance.py:97-193 | Over any number of deploy and recover processes on one journal, each ending by success, exception or death after any step, with users writing whenever the service runs: the log satisfies "activate at most once, and neither activate nor restore_separate after it"; the one hand-over of the writer lease, if any, is a good admission; whenever the service runs, its database holds every write ever accepted |
| `MaintenanceProtocol.Process` | bot/operations/maintenance.py:180-193 | One deploy or recover process. When nothing goes wrong outside and every check of the machine meets what it expects, a deployment without a journal returns `deployed` and a recovery whose journal permits it for the installed identity returns `restored_previous`. A deployment that fails ends as its journal file decided: restored, or halted and marked. After an earlier activation it cannot succeed and hands over nothing; a body that succeeds leaves the service on a database with every accepted write; a failing run that had entered the part guarded by the handler and whose last halt did not fail leaves the service running exactly when its body succeeded and then the closing of the port raised |
| `MaintenanceProtocol.DeployJournaled` | bot/operations/maintenance.py:125-162 | `_deploy`: refuses an existing journal without a call; an undisturbed one succeeds; a failed one is restored if its journal file permits that and otherwise halted and marked, unless something goes wrong again; success means `deployed` on the source after exactly the full sequence of calls, or `restored_previous`; a raise leaves the service stopped unless the last halt failed or the guarded part had not begun |
| `MaintenanceProtocol.DeployCandidate` | bot/operations/maintenance.py:131-147 | The guarded part of `_deploy` succeeds unless an effect goes wrong or a check meets a mismatch; success needs every call of every stage in order, a durable `deployed` record and the candidate running on the source |
| `MaintenanceProtocol.FreezeService` | bot/operations/maintenance.py:131-134 | First stage: the service is stopped and the journal durably says so before anything is dumped |
| `MaintenanceProtocol.SecureSnapshot` | bot/operations/maintenance.py:135-140 | Second stage: rollback becomes permitted only together with a verified, rehearsed snapshot whose guard equals every accepted write, and durably so |
| `MaintenanceProtocol.MigrateSource` | bot/operations/maintenance.py:141-146 | Third stage: after it the source still holds exactly the accepted writes |
| `MaintenanceProtocol.HandleFailedDeploy` | bot/operations/maintenance.py:148-162 | The exception path: the durable journal alone decides on a rollback; a permitted one succeeds, and otherwise the service ends halted and marked, unless something goes wrong again; it never returns without the previous release running |
| `MaintenanceProtocol.Admit` | bot/operations/maintenance.py:97-107 | `_activate`: the durable record forbids rollback before the port is called; success leaves memory and disk equal, final and without rollback permission |
| `MaintenanceProtocol.Restore` | bot/operations/maintenance.py:110-122 | `_restore`: without a rollback permission in memory it raises without a call; success has made exactly the prescribed calls and runs the previous release on the restored database |
| `MaintenanceProtocol.RecoverJournaled` | bot/operations/maintenance.py:165-177 | `_recover`: with a journal file that permits the rollback and the installed identity it succeeds unless something goes wrong, and with another identity it touches nothing; a missing journal or one that forbids rollback is refused after the load alone; success is a full freeze and restore |
| `MaintenanceProtocol.HaltAndMark` | bot/operations/maintenance.py:157-162 | Every handler ends halted and durably marked `recovery_required`, unless something goes wrong in it, or with a recorded halt failure, and raises again |
| `Maintenance.Journal.Save` | bot/operations/maintenance.py:61-79 | The three outcomes of a save: nothing written and raised, written and raised, written and returned; only a returning save changes memory, so disk may be newer than memory |
| `Maintenance.Journal.Load` | bot/operations/maintenance.py:57-59 | A returning load makes memory equal to disk, a raising one changes nothing |
| `Maintenance.LegalLogMeansFinal` | bot/operations/maintenance.py:97-177 | A log checked call by call is legal exactly when no activation or restore follows an activation anywhere in the whole history |
| `Maintenance.ActivatedSomewhere` | bot/operations/maintenance.py:97-107 | The flag carried along the log says exactly whether some call was an activation |
| `MaintenancePort.Port.Activate` | bot/operations/maintenance_deploy.py:167-186 | The port repeats all checks before it touches a lease; a raising activation leaves the service stopped unless halt fails; a returning one runs the service on the selected database with memory equal to disk |
| `MaintenancePort.Port.SelectTarget` | bot/operations/maintenance_deploy.py:167-182 | A target is selected only if it holds exactly the accepted writes and the durable record already says admission_started without rollback permission; candidate means the source, previous the named restored database |
| `MaintenancePort.Port.HandOver` | bot/operations/maintenance_launchd.py:192-206 | The writer lease is released only while the journal file itself says admission_started without rollback permission, and only to a database holding every accepted write |
| `MaintenancePort.Port.LaunchdActivate` | bot/operations/maintenance_launchd.py:192-206 | A hand-over that raises is followed by a halt; release and database match the durable record in every one that returns |
| `MaintenancePort.Port.LaunchdHalt` | bot/operations/maintenance_launchd.py:131-141 | A returning halt has stopped the service; a failing one is recorded |
| `MaintenancePort.Port.Freeze` | bot/operations/maintenance_deploy.py:112-114 | A returning freeze has stopped the service and holds the writer lease; no accepted write is lost |
| `MaintenancePort.Port.TakeSnapshot` | bot/operations/maintenance_deploy.py:124-127 | The snapshot of the frozen source is guarded by exactly the accepted writes |
| `MaintenancePort.Port.RestoreSeparate` | bot/operations/maintenance_deploy.py:147-149 | A restore creates a database apart from the source with the snapshot's contents and leaves the source alone |
| `MaintenancePort.Port.ValidatePrevious` | bot/operations/maintenance_deploy.py:151-165 | The previous release is validated, after one more identity check, only on a database that this port created and that equals the snapshot |
| `MaintenancePort.Port.Migrate` | bot/operations/maintenance_deploy.py:136-140 | The migration may change the source only after rollback is durably permitted |
| `DeliveryProofs.DeliveredPartsAreAPrefix` | bot/services/delivery.py:125-245 | Over every schedule of workers, crashes, lease expiries and clock values: delivered parts are a prefix by position, status `delivered` implies all parts are, and a token is stored exactly while the status is `delivering` |
| `DeliveryProofs.PartsOnlyAdvance` | bot/services/delivery.py:208-245 | Payloads never change and a part once delivered never changes again |
| `DeliveryProofs.FinalStatesAbsorb` | bot/services/delivery.py:131-161 | Rows of a delivered, failed or expired batch never change again |
| `DeliveryProofs.ClaimsAfterTheEighth` | bot/services/delivery.py:268-308 | No claim follows a recorded failure that was permanent or of the eighth or a later claim; later claims follow crashes and lost leases only |
| `DeliveryProofs.GivenUpExactly` | bot/services/delivery.py:268-308 | Over every schedule a batch is `failed` exactly when a permanent failure, or a failure of the eighth or a later claim, was recorded: no other failure is final |
| `DeliveryProgress.FailedIsRetriedOnTime` | bot/services/delivery.py:268-308 | After the holder recorded a failure that is not permanent, of one of the first seven claims, and while nothing else touches the batch, a later worker claims it exactly from min(3600, 30 * 2^min(attempts, 7)) seconds after the failure until it expires, and then it expires |
| `DeliveryProgress.LapsedLeaseIsTakenOver` | bot/services/delivery.py:131-161 | After a claim or a recorded part, whatever other workers try and wherever the holder dies, a later worker claims the batch exactly when the lease written last is over, within the time of the batch; it expires exactly when that lease and its time are over |
| `DeliveryProgress.RecordsExactly` | bot/services/delivery.py:208-245 | A sent part is recorded exactly by a worker that holds its lease and whose lease is not over at that time; a record that comes too late changes nothing |
| `DeliveryProgress.NewBatchStartsAtOnce` | bot/services/delivery.py:131-161 | The first start that commits claims a new batch exactly before it expires, and ends it from then on |
| `DeliveryProgress.UndisturbedWorkerDelivers` | bot/services/delivery.py:125-340 | A worker that owns the batch and meets neither a failure nor the end of its lease sends every pending part exactly once, in order, records each under the id that Telegram returned, and leaves the batch delivered |
| `DeliveryProofs.SentAtMostAttempts` | bot/services/delivery.py:196-245 | Each part is accepted by Telegram at most as often as the batch was claimed |
| `DeliveryProofs.StaleWorkerSendsOnce` | bot/services/delivery.py:196-340 | A worker whose token left the row never gets it back and sends at most one further message |
| `DeliveryProofs.StaleWorkerIsFenced` | bot/services/delivery.py:196-340 | Dropping every event of a worker that lost its lease from the schedule gives the same rows |
| `DeliveryProofs.RunKeepsInv` | bot/services/delivery.py:125-340 | The inductive invariant over leases, claims, prefix, sends and failures holds along every schedule |
| `Delivery.BatchRows.ClaimLease` | bot/services/delivery.py:131-161 | Expiry and claim in one transaction, equal to the claim step that the proofs use |
| `Delivery.BatchRows.Record` | bot/services/delivery.py:208-245 | Recording a delivered part renews the lease and the part together, or rolls both back |
| `Delivery.BatchRows.Fail` | bot/services/delivery.py:268-308 | A failure is recorded by the lease holder only, final from the eighth attempt or when permanent |
| `Delivery.BatchRows.Finish` | bot/services/delivery.py:310-340 | Only the lease holder completes the batch |
| `Delivery.Outbox.EnsureBatch` | bot/services/delivery.py:51-103 | A retry finds the persisted payload, never its own; a key of another user or kind, and an empty payload, are refused; nothing else is created |
| `CommandExecution.RunIsExactlyOnce` | bot/services/command_execution.py:27-105 | For every schedule of retries, crashes and concurrent workers each planned action is durable at most once, exactly when its result is recorded, and project tasks only after a recorded project |
| `CommandExecution.RunExtends` | bot/services/command_execution.py:27-105 | Over every schedule a stored plan and recorded results never change, and after abandonment no effect becomes durable |
| `CommandPlans.PlanIsFirstProposal` | bot/services/command_execution.py:27-40 | Over every schedule the stored plan is the one already there, or else the proposal of the first durable `persist_plan` by the owner of the row |
| `CommandPlans.PreparationIsTheFirst` | bot/services/command_execution.py:75-105 | Over every schedule the recorded preparation of a project is the one already there, or else the first durable one for the created project, whoever prepared it |
| `CommandPlans.EffectsAreWhole` | bot/services/command_execution.py:43-72 | Every durable commit of a request holds all writes of one execution of its action, which returned exactly the recorded result and raised and rolled back nothing |
| `CommandPlans.ReservationEndsExactly` | bot/handlers/messages.py:277-313 | After a reservation, however much is planned and executed under it, its owner resumes the request exactly when more than five minutes are over, and closes it exactly from the fifth minute on |
| `CommandPlans.ReservedByExactly` | bot/handlers/messages.py:277-332 | A new request is reserved by anyone and starts without a plan; a finished one only if it failed, by its owner, unless it was closed; a finished one can be closed at once |
| `CommandExecution.NoEffectTwice` | bot/services/command_execution.py:43-72 | Two durable commits of one action in any run from the start are the same commit |
| `CommandExecution.ReplayIsSilent` | bot/services/command_execution.py:43-72 | A retry of a recorded action, at any later point of an unclosed request, commits nothing and repeats the recorded answer |
| `CommandExecution.ReservationIsExclusive` | bot/handlers/messages.py:277-313 | After a request is reserved and over any further claims, actions, preparations and abandonment at any times, until somebody finishes it as failed, nobody can claim it within five minutes of the reservation |
| `CommandExecution.ResumeKeepsThePlan` | bot/handlers/messages.py:277-313 | Resuming is for the owner of an unfinished, unclosed request and keeps its plan and results |
| `CommandExecution.AbandonedForGood` | bot/handlers/request_retry.py:122-145 | Over every schedule a closed request stays closed: it cannot be claimed, every action answers that it is closed, and nothing more becomes durable |
| `CommandExecution.StepIsOrdered` | bot/services/command_execution.py:54-62 | Recorded actions lie within the plan, and project tasks and preparations follow a recorded project creation |
| `CommandExecution.StepExtends` | bot/handlers/request_retry.py:122-145 | No transaction, abandonment included, rewrites the plan or a recorded result |
| `CommandSessions.CommandSession.Commit` | bot/db/engine.py:29-33 | A commit of a borrowed session makes nothing durable and keeps what is staged; the owner's commit makes effect and result durable in one step |
| `CommandSessions.CommandSession.Rollback` | bot/db/engine.py:35-38 | A rollback of a borrowed session poisons the command and drops what was staged |
| `CommandSessions.CommandSession.Borrow` | bot/db/engine.py:49-73 | Whatever a command does with a borrowed session, the database is unchanged; it stages exactly its writes unless some nested rollback poisons it |
| `CommandSessions.RunAction` | bot/services/command_execution.py:43-72 | `execute_action` over the session objects takes exactly the transaction step of the model |
| `CommandSessions.RunAmongOthers` | bot/services/command_execution.py:43-72 | Among concurrent workers a returned non-error answer is the recorded result, exactly-once is kept, and an action of the plan succeeds unless its command or its commit goes wrong or the request is closed |
| `CommandSessions.PersistAmongOthers` | bot/services/command_execution.py:27-40 | Among concurrent workers the returned plan is the one already stored, or else exactly the proposed one, and it is what is stored then |
| `CommandSessions.PrepareProject` | bot/services/command_execution.py:75-105 | A returned preparation is the one recorded before, or else exactly the one made, and it is recorded, unless tasks are already recorded; nothing is prepared twice, and it succeeds unless the preparation or a commit goes wrong |
| `CommandSessions.PresentCreatedProject` | bot/handlers/messages.py:951-1017 | A created project is presented as done only with its tasks recorded or a preparation that proposes none |
| `CommandSessions.PresentToolCalls` | bot/handlers/messages.py:890-937 | The plan that is run is the one already stored or else the proposed one; a request counts as completed only when every action of it has left its result and every created project is settled, and it does complete unless a command, a preparation or a commit goes wrong or the request is closed |
| `FormatterProofs.SplitKeepsRendering` | bot/formatters/__init__.py:121-139 | Without the fallback the chunks, each shown as a message of its own, show every character and entity once, in order, inside the same open tags with attributes; chunks of a split message end with no open tag, and are well nested if the input is |
| `FormatterProofs.SplitFits` | bot/formatters/__init__.py:121-139 | Splitting succeeds exactly from a limit of 5 on, and then every part fits, fallback included |
| `FormatterProofs.FallbackKeepsText` | bot/formatters/__init__.py:46-58 | When the fallback is taken, unescaping the concatenated parts gives back the source text |
| `FormatterProofs.PlainFallbackExactly` | bot/formatters/__init__.py:88-139 | On long input without supported tags the fallback is taken exactly when some entity or unsupported tag is longer than a chunk |
| `FormatterProofs.FallbackExactly` | bot/formatters/__init__.py:76-139 | For any tokens of a message longer than the limit: the markup is lost exactly when some part of the message, read from the start, makes the chunker give up or leaves it with a begun chunk that it cannot close within the limit |
| `FormatterProofs.FallbackByToken` | bot/formatters/__init__.py:76-139 | The same token by token: the markup is lost exactly when some token cannot be placed, judged by lengths alone |
| `FormatterProofs.MisfitsExactly` | bot/formatters/__init__.py:76-113 | A tag cannot be placed exactly when the chunk it lands in, this one or a fresh one, has no room for it together with the closing tags due after it; uncuttable text when it fits neither chunk; other text when it does not fit this one and the reopened tags fill a fresh one |
| `FormatterProofs.OpeningMisfitsExactly` | bot/formatters/__init__.py:76-86 | For an opening tag that is room for itself and its own closing tag |
| `FormatterProofs.GivingUpMeansMarkup` | bot/formatters/__init__.py:88-113 | The chunker gives up on text only when the tags reopened and closed in a chunk fill the whole limit by themselves |
| `FormatterProofs.FallbackAtAnEdge` | bot/formatters/__init__.py:76-86 | A special case: a text followed by an opening tag that leave no room for the closing tag lose all markup, whatever follows |
| `FormatterProofs.UnescapeUndoesEscape` | bot/formatters/__init__.py:46-58 | Escaping is undone by unescaping |
| `FormatterProofs.AddAllKeeps` | bot/formatters/__init__.py:76-113 | After any number of tokens what is shown so far is the rendering of those tokens, and every finished chunk is closed |
| `HtmlSplitter.HtmlChunker.Flush` | bot/formatters/__init__.py:71-74 | The object closes its open tags, keeps the chunk and reopens them |
| `HtmlSplitter.HtmlChunker.Pop` | bot/formatters/__init__.py:76-86 | The loop over the stack removes the innermost open tag of the name and no other |
| `HtmlSplitter.HtmlChunker.AddTag` | bot/formatters/__init__.py:76-86 | The object takes the step of the specification for a tag |
| `HtmlSplitter.HtmlChunker.AddText` | bot/formatters/__init__.py:88-113 | The consuming loop equals the recursive specification, overflow included |
| `HtmlSplitter.EscapedChunks` | bot/formatters/__init__.py:46-58 | The loop equals the specification of the literal fallback |
| `HtmlCuts.MessageEndsExactly` | bot/formatters/__init__.py:76-113 | A token joins the current message exactly when it fits beside the closing tags; one that does not fit ends the message |
| `HtmlCuts.TextIsCutLate` | bot/formatters/__init__.py:88-113 | A text is cut as late as the limit allows: right after a space or line break when the next one would come too late, and inside a word only at the limit, when the part holds no break but at its start |
| `HtmlCuts.LiteralPartsAreFull` | bot/formatters/__init__.py:46-58 | A part of the literal fallback ends only because the next character did not fit |
| `HtmlSplitter.SplitHtmlMessage` | bot/formatters/__init__.py:121-139 | The function over the chunker object equals the specification that the lemmas are about |
| `PlainSplitter.SplitMessage` | bot/formatters/__init__.py:11-32 | `split_message` equals the cutting specification; a limit below one is refused |
| `PlainSplitter.PiecesFit` | bot/formatters/__init__.py:11-32 | Every part fits and none is empty |
| `PlainSplitter.PiecesKeepText` | bot/formatters/__init__.py:11-32 | Together the parts show every character but line breaks, in order |
| `PlainSplitter.LinesStayWhole` | bot/formatters/__init__.py:11-32 | If all lines are shorter than a message, the non-empty lines of the parts are the non-empty lines of the text: no line is broken |
| `PlainSplitter.PartsAreFull` | bot/formatters/__init__.py:11-32 | Parts are as long as possible: a part either fills the message without a line break to end at, or could not have held its next line too |
| `DumpFilterProofs.ChunkingIsIrrelevantExactly` | bot/scheduler/backup.py:133-160 | For every byte stream: the output of every way of cutting it equals the line-by-line reference exactly when no droppable line stands at or after an over-long line of the leading preamble |
| `DumpFilterProofs.ShortPreambleIsLineByLine` | bot/scheduler/backup.py:133-160 | Without an over-long preamble line the output equals the line-by-line reference, whatever the cutting |
| `DumpFilterProofs.OutputFiltersFirst` | bot/scheduler/backup.py:133-166 | For every stream and cutting only whole droppable lines of the leading preamble are missing, and all of them up to its end or to some over-long line |
| `DumpFilterProofs.CutProofIsNeeded` | bot/scheduler/backup.py:141-156 | Reading byte by byte keeps a droppable line that follows an over-long one |
| `DumpFilterProofs.DroppableExactly` | bot/scheduler/backup.py:305-307 | Droppable are exactly the lines that hold the rejected setting with nothing but white space around it |
| `DumpFilterProofs.LongCommentDefeats` | bot/scheduler/backup.py:141-156 | Every over-long preamble line, such as a comment over 256 bytes, followed by the rejected setting is such a stream |
| `DumpFilterProofs.ReferenceFiltersLeading` | bot/scheduler/backup.py:163-166 | The reference deletes exactly the droppable lines of the leading preamble |
| `DumpFilter.CopyPortableDump` | bot/scheduler/backup.py:133-160 | The loop over reads equals the filter's specification and never holds more than 256 bytes between reads |
| `DumpFilter.FeedInPlace` | bot/scheduler/backup.py:141-156 | The body over one segment takes the filter's step and keeps the bound on held bytes |
| `Calendar.NextDayIsNext` | bot/db/crud/reminders.py:345-408 | The next calendar day is the next day number (Gregorian rules of ISO 8601:2004, section 3.2.1) |
| `Calendar.LeapRule` | bot/db/crud/reminders.py:345-408 | The leap years of the model are those divisible by 4 and not by 100, or by 400 |
| `Calendar.OrdinalIsInjective` | bot/db/crud/reminders.py:345-408 | Different dates have different day numbers |
| `Calendar.AddDaysIsAddition` | bot/db/crud/reminders.py:345-408 | Adding days, forwards or backwards, adds to the day number |
| `Calendar.AddMonthsMoves` | bot/db/crud/reminders.py:345-408 | Adding months moves by exactly that many months and clamps the day to the month's length |
| `Calendar.LaterMonthIsLater` | bot/db/crud/reminders.py:345-408 | Every date of a later month has a larger day number |
| `Recurrence.CalcNextOccurrence` | bot/db/crud/reminders.py:345-408 | The code with its loops over candidate days equals the specification of one step |
| `Recurrence.NextWorkingDay` | bot/db/crud/reminders.py:345-408 | The loop over weekend days equals the specification |
| `Recurrence.NextListedDay` | bot/db/crud/reminders.py:345-408 | The search over seven offsets equals the first offset with a listed weekday |
| `Recurrence.ValidRuleAdvances` | bot/db/crud/reminders.py:345-429 | Every rule the validator accepts gives a strictly later day, at the same time of day |
| `Recurrence.FixedStepsAreExact` | bot/db/crud/reminders.py:345-408 | `daily` and `every:` rules move by exactly their number of days, weeks or months, the day clamped to the month's length |
| `Recurrence.WeekdaysIsLeast` | bot/db/crud/reminders.py:345-408 | `weekdays` gives the least later working day, within three days |
| `Recurrence.WeeklyIsLeast` | bot/db/crud/reminders.py:345-408 | `weekly:` gives the least later date on a listed weekday, within seven days |
| `Recurrence.MonthlyNeverDrifts` | bot/db/crud/reminders.py:345-408 | `monthly:N` iterated k times lands in the k-th following month on min(N, its length): no drift |
| `Recurrence.EveryMonthsExactly` | bot/db/crud/reminders.py:345-408 | `every:Nm` iterated k times, from any date and for any N, lands N times k months on, on the start day cut down to the length of every month met on the way |
| `Recurrence.EveryMonthsDriftsExactly` | bot/db/crud/reminders.py:345-408 | It differs from adding all the months at once exactly when some month met before is shorter than the day that this would give; the 31st of January is the witness |
| `Recurrence.EarlyDaysNeverDrift` | bot/db/crud/reminders.py:345-408 | Up to the 28th it never drifts |
| `Recurrence.NextFutureOccurrence` | bot/db/crud/reminders.py:282-289 | The catch-up loop of the reminders equals the common specification with its bound of 10000 steps |
| `Recurrence.NextTaskOccurrence` | bot/services/tasks.py:34-41 | The catch-up loop of the tasks equals the same specification, so both loops return the same on all inputs |
| `Recurrence.CatchUpIsFirst` | bot/db/crud/reminders.py:282-289 | A returned value is the first member of the rule's orbit that is not in the past, all earlier members being past; an exception means that all members in reach are past |
| `Recurrence.GivesUpExactly` | bot/db/crud/reminders.py:282-289 | The loop raises exactly when the first 10000 members of the orbit are all past |
| `Recurrence.ValidRuleCatchesUp` | bot/db/crud/reminders.py:282-289 | For accepted rules the loop finds an occurrence in the future whenever now is less than 10000 days after the start |
| `Recurrence.ValidOrbitGrows` | bot/db/crud/reminders.py:345-429 | The orbit of an accepted rule is endless, keeps the time of day and gains at least a day per step |
| `Lifecycle.RunKeepsInv` | bot/db/crud/reminders.py:71-342 | Over every run of reminder and task transactions: `is_sent` holds exactly for delivered, resolved and cancelled; series and occurrence stay unique; a pending or snoozed row with a token belongs to no task or to an open one; a row waits with at most four failures and is snoozed at most five times |
| `LifecycleProofs.ActiveClaimMeansLiveTask` | bot/db/crud/reminders.py:253-258 | Over every run, a claim that passes its check belongs to no task or to an open one |
| `LifecycleProofs.ActiveClaimIsExclusive` | bot/db/crud/reminders.py:224-258 | While a claim is active its row cannot be claimed again, and no other token is active on it |
| `LifecycleProofs.GoneForGood` | bot/db/crud/reminders.py:224-250 | Over every run, a token that left its row never comes back to it |
| `LifecycleProofs.StaleWorkerIsFenced` | bot/db/crud/reminders.py:71-95 | A worker whose token was replaced or cleared, however late it comes back, fails its check, and its mark and its failure change nothing |
| `LifecycleProofs.ChangeEndsTheClaim` | bot/db/crud/reminders.py:71-342 | Every transaction that changes a claimed row ends its claim |
| `SeriesProofs.SeriesNeverFork` | bot/db/crud/reminders.py:71-154 | Over every run of calls as the program makes them, at most one row per series is unsent and carries a rule |
| `SeriesProofs.StepForksExactly` | bot/db/crud/reminders.py:71-342 | A transaction forks a series exactly in two cases that a caller can check: an upsert with a rule of a row whose series another row carries, and a final failure recorded without a token for a sent repeating row whose series goes on |
| `SeriesProofs.UpsertCanFork` | bot/db/crud/reminders.py:292-342 | Two concrete rows for which an upsert with a rule forks the series |
| `SeriesProofs.FailureCanFork` | bot/db/crud/reminders.py:187-212 | Two concrete rows for which a final failure without a token forks the series |
| `SeriesFate.SeriesLivesExactly` | bot/db/crud/reminders.py:71-184 | Over every run of calls as the program makes them, a repeating reminder of no task with an accepted rule has an unsent row in the end exactly when nobody resolved its carrying row on the way |
| `SeriesFate.EndedForGood` | bot/db/crud/reminders.py:71-342 | Over every run of calls as the program makes them, a series that no row carries is never carried again |
| `SeriesFate.ResolvingEnds` | bot/db/crud/reminders.py:170-184 | Once its owner resolves the row that carries a series, the series is over after every later run |
| `SeriesFate.QuickAnswerLosesTheSeries` | bot/handlers/callbacks.py:167-173 | Without any crash: if the claimed row is resolved before its delivery is recorded, the worker's record with its valid token changes nothing, and the series is over after every later run |
| `SeriesFate.SeriesKeepsItsOrbit` | bot/db/crud/reminders.py:71-154 | Over every run of calls as the program makes them in which nobody snoozes an undelivered carrying row, a series keeps its rule and fires only at members of the orbit of its start |
| `SeriesFate.NewSeriesKeepsItsOrbit` | bot/db/crud/reminders.py:19-47 | In particular the series of a new reminder keeps to the orbit of its first moment |
| `SeriesFate.SnoozeMovesTheSeries` | bot/db/crud/reminders.py:120-154 | A snooze of the undelivered carrying row moves the series for good: from then on it fires at the orbit of the new moment |
| `SeriesFate.ValidRuleNeverEnds` | bot/db/crud/reminders.py:282-289 | An accepted rule never ends its series |
| `DueProofs.UntouchedKeepsItsTime` | bot/db/crud/reminders.py:224-250 | Over every run without an event about a row or about the status or the alarm of its task, whatever else is called or edited, the row stays as it is and is due exactly when it was |
| `DueProofs.NewReminderFiresOnTime` | bot/db/crud/reminders.py:19-47 | Over every such run a new reminder is due exactly from its moment on, while its task is open |
| `DueProofs.SnoozedFiresOnTime` | bot/db/crud/reminders.py:120-154 | Over every such run a snoozed reminder, whatever its status was, is due exactly from its new moment on |
| `DueProofs.FailedFiresAfterTheDelay` | bot/db/crud/reminders.py:187-212 | Over every such run a failed delivery is repeated exactly from the end of the delay on, and never after a final error or the fifth failure in a row |
| `DueProofs.SeriesFiresOnTime` | bot/db/crud/reminders.py:71-117 | Over every such run a delivered row stays silent, and its series is due exactly from the following occurrence on |
| `DueProofs.UpsertedFiresOnTime` | bot/db/crud/reminders.py:292-342 | Over every such run the reminder that an upsert moved or created is due exactly from its moment on |
| `DueProofs.RetriedFiresNow` | bot/db/crud/reminders.py:261-279 | Over every such run a retried reminder is due at once, or at its own moment if that is still ahead |
| `DueProofs.AbandonedClaimFiresAgain` | bot/db/crud/reminders.py:224-250 | Over every such run a reminder whose worker died is due again exactly when the lease has run out |
| `DueProofs.FreshClaimIsActive` | bot/db/crud/reminders.py:224-258 | Over every such run a claimed row is the worker's exactly for five minutes |
| `DeliveryBound.DeliveredAtMostSixTimes` | bot/db/crud/reminders.py:71-154 | Over every run of calls as the program makes them, from the empty tables, a reminder is delivered at most once more than it is snoozed, so at most six times |
| `DeliveryBound.DeliveriesArePaid` | bot/db/crud/reminders.py:71-154 | From any reachable state, deliveries of a row are bounded by its pending delivery and its further snoozes |
| `DueProofs.DelaysDouble` | bot/db/crud/reminders.py:207-208 | Delays start at a minute and double up to an hour; a longer wait asked for is respected |
| `ReminderEdits.SnoozedExactly` | bot/db/crud/reminders.py:120-154 | Over every run of any transactions a row is snoozed exactly as often as its owner asks for a free moment, up to five times in its life |
| `ReminderEdits.SnoozeMovesTheRow` | bot/db/crud/reminders.py:120-154 | A snooze of a row snoozed fewer than five times raises exactly for a moment taken in its series; otherwise the row waits at the new moment, unsent, unclaimed and with no failure counted, repeats no more if it was sent, and nothing else changes |
| `ReminderEdits.ResolveClosesTheRow` | bot/db/crud/reminders.py:170-184 | A resolution reaches exactly the user's own row, whatever its status, and closes it with nothing else changed |
| `ReminderEdits.RetriedExactly` | bot/db/crud/reminders.py:261-279 | A retry takes effect exactly for the user's own row that failed for good, of no task or an open one; it waits again at once with a fresh count of failures |
| `ReminderEdits.CreatedAsRequested` | bot/db/crud/reminders.py:19-47 | A new reminder stands as requested in a series that no other row has; only a missing task refuses it |
| `ReminderEdits.UpsertedAsRequested` | bot/db/crud/reminders.py:292-342 | The reminder of a task is set as requested on its unfinished row created last, which keeps its series and its snoozes, or else on a new row; it raises exactly for a missing task without such a row and for a moment taken in the series |
| `ReminderEdits.ClosedExactly` | bot/services/tasks.py:178-189 | Closing the reminders of a task reaches exactly its waiting, failed and delivered rows of the user |
| `PlannerRows.Planner.ClaimDueReminders` | bot/db/crud/reminders.py:224-250 | The rows claimed are, one after another, the first in order of those due, unlocked and left, until the limit is reached or none is left; each takes the next new token |
| `PlannerRows.ClaimedRowsHoldTheirTokens` | bot/db/crud/reminders.py:224-250 | After a batch of claims every claimed row holds its own claim's token and no other row changed |
| `PlannerRows.Planner.MarkSent` | bot/db/crud/reminders.py:71-117 | The in-place code takes the delivery step, and raises without a change when the loop gives up or the occurrence is taken |
| `PlannerRows.Planner.SnoozeReminder` | bot/db/crud/reminders.py:120-154 | The in-place code takes the snooze step; a taken occurrence aborts it unchanged |
| `PlannerRows.Planner.ResolveReminder` | bot/db/crud/reminders.py:170-184 | The in-place code takes the resolve step for the owner only |
| `PlannerRows.Planner.RecordDeliveryFailure` | bot/db/crud/reminders.py:187-212 | The in-place code takes the failure step, with the doubling delay |
| `PlannerRows.Planner.RetryFailedReminder` | bot/db/crud/reminders.py:261-279 | A queued retry leaves a pending row of no task or of an open one; otherwise nothing changes |
| `PlannerRows.Planner.LatestUnfinished` | bot/db/crud/reminders.py:302-314 | The query selects an unfinished row of the task that was created last, or none when there is none |
| `PlannerRows.Planner.UpsertTaskReminder` | bot/db/crud/reminders.py:292-342 | The in-place code moves the selected row or creates one, and aborts unchanged on a taken occurrence or a missing task |
| `ReminderWorker.DeliverClaim` | bot/scheduler/reminders.py:35-65 | With any other transactions before each of its own, and each effect returning, raising or dying as its environment says: a message is sent exactly after a check that found the claim active on a waiting row of no task or an open one; a sent message whose recording returns leaves the row delivered with its successor at the following occurrence; a failure is counted exactly for an exception of the check, the send or the recording, final for a permanent error or the fifth, else after the doubling delay or the wait that a flood error names; no series forks |
| `ReminderWorker.TryDelivery` | bot/scheduler/reminders.py:36-54 | The part whose exceptions are handled: it reports success exactly when the delivery was recorded, and which exception it ended with |
| `ReminderWorker.RecordSent` | bot/scheduler/reminders.py:47-48 | The delivery transaction raises exactly when its commit does or the next occurrence cannot be stored, and otherwise delivers the row of a claim that still holds it, and no other |
| `ReminderWorker.RecordFailure` | bot/scheduler/reminders.py:56-63 | The failure transaction counts one failure of the row of a claim that still holds it, and changes no other |
| `TaskProofs.CompletionEffect` | bot/services/tasks.py:60-175 | A completion closes every reminder of the task, changes no other row or task, and adds at most one open task with at most one pending reminder, set to that task's reminder time |
| `TaskEdits.CompletesExactly` | bot/services/tasks.py:60-93 | A completion takes effect exactly for the user's open task whose next occurrence, if it repeats, can be found; it stores the time and reports exactly the reminders it closed |
| `TaskEdits.SuccessorInherits` | bot/services/tasks.py:112-165 | The new task is open and of the same user, with the same card, due time, alarm distance and rule, and with those dates that the completed one had |
| `TaskProofs.CompletedAtMostOnce` | bot/services/tasks.py:60-83 | Over every run of any transactions in which the task is not reopened, it is completed at most once |
| `TaskProofs.RequestsAreIdempotent` | bot/services/tasks.py:60-83 | Any sequence of completion requests comes to exactly its first effective one; without one nothing changes |
| `TaskProofs.RecurringStaysClosed` | bot/services/tasks.py:230-232 | Over every run in which nobody clears its rule, a closed recurring task stays closed and is not completed again, although it is edited, its rule is replaced and reopening is requested |
| `TaskProofs.ClearingTheRuleReopens` | bot/services/tasks.py:230-243 | And only so long: clearing the rule in one edit lets the next edit reopen any closed recurring task |
| `TaskProofs.AlarmFollowsDeadline` | bot/services/tasks.py:192-211 | Moving the deadline sets the alarm to its distance before the new deadline, on the row that was waiting if there was one; clearing it leaves no unfinished reminder |
| `TaskEdits.UpdateStoresTheRequest` | bot/services/tasks.py:214-269 | After every update that reaches its row and returns, each field holds the requested value, or its old one when none was requested; the reminder time too, unless the alarm is bound to a deadline that the update names: then it lies its distance before the requested deadline, or is cleared with it; status and completion time are as the target says; a cancelled or completed task has no unfinished reminder left, and other updates leave the reminders alone |
| `TaskEdits.UpdateReturnsExactly` | bot/services/tasks.py:230-269 | An update that reaches its row is refused exactly for reopening a closed recurring task, for arguments it does not take, for an unknown status, for a completion without a next occurrence, and for an alarm already taken in its series |
| `SuccessorProofs.ChainKeeps` | bot/services/tasks.py:112-157 | Along any chain of completions the anchors are members of the first anchor's orbit, the scheduled-to-due gap is constant, each reminder lies between its completion and the due moment, and the nonnegative lead never grows |
| `SuccessorProofs.NextReminderKeepsLead` | bot/services/tasks.py:44-57 | The new reminder lies between now and the due moment, and its lead is the old one or, if less, all the time that is left |
| `SuccessorProofs.CompletionContinues` | bot/services/tasks.py:112-157 | The task that a completion adds is the link of the chain, and its reminder row is exactly set to it |
| `SuccessorProofs.ContinuationExists` | bot/services/tasks.py:34-41 | Within 10000 days of the anchor a completion always finds the next occurrence |
| `PlannerRows.Planner.CompleteTask` | bot/services/tasks.py:60-175 | The in-place code, with its loop closing reminders, takes the completion step and reports it, or raises |
| `PlannerRows.Planner.CloseTaskReminders` | bot/services/tasks.py:178-189 | The loop closes exactly the open and delivered reminders of the task and no other row |
| `PlannerRows.Planner.SyncBoundAlarm` | bot/services/tasks.py:192-211 | The in-place code takes the alarm step |
| `PlannerRows.Planner.UpdateTask` | bot/services/tasks.py:214-269 | The in-place code takes the update step; whatever raises leaves every row as it was |
| `UserDeletion.RunRepeatedly` | scripts/delete_user_data.py:199-228 | For a duplicate-free whitelist: over any number of runs, each ending anywhere, with rows appearing in between, the file stays the first list or that list without the user, and so does the journaled original |
| `UserDeletion.Host.Run` | scripts/delete_user_data.py:199-228 | For any whitelist: a run that is admitted, recognizes the file and meets no trouble succeeds, and one that is not admitted changes nothing; a deletion that fails gives the access back and is journaled as rolled back, unless something goes wrong again; a successful run ends with zero rows, the id absent and the journal completed; a run leaves the file as it was or writes one of the two lists of its operation; `completed` is new in the journal only with zero rows; a file it does not recognize is not touched, nor is anything else; a dry run changes nothing |
| `UserDeletion.ResumesExactly` | scripts/delete_user_data.py:126-140 | A later run recognizes the file that the revocation wrote exactly when nobody else is listed twice, and the file that a rollback wrote exactly when nobody is |
| `UserDeletion.FileStepExactly` | scripts/delete_user_data.py:126-187 | Without duplicates the possible files after a run are exactly the list and the list without the user |
| `UserDeletion.DistinctKeepsExactly` | bot/services/access_config.py:23-50 | Writing a list keeps it exactly when it has no duplicates |
| `UserDeletion.Host.PrepareDeletion` | scripts/delete_user_data.py:99-123 | An operation under way is resumed unchanged; only otherwise a new one starts from the current file; nothing is left to do only with zero rows and no access |
| `UserDeletion.Host.RevokeAccess` | scripts/delete_user_data.py:126-140 | After it the id is absent; an unrecognized file aborts without a change; the journaled original survives |
| `UserDeletion.Host.DeleteData` | scripts/delete_user_data.py:157-187 | Rows disappear only together with the journal's `completed`; a failure restores the operation's list and journals the rollback, unless something goes wrong again |
| `UserDeletion.Host.CommitDeletion` | scripts/delete_user_data.py:161-175 | The one transaction that writes `completed` removes the rows |
| `UserDeletion.Host.WriteList` | bot/services/access_config.py:23-50 | The file is replaced as a whole by the list without repetitions, or kept, and a raise does not tell which |
| `Conversation.Conversations.GetHistory` | bot/llm/context.py:35-38 | The history read is the longest end of everything added since the last clear that has at most max(2, 2·pairs) items and fits the token budget or has at most two items |
| `Conversation.Conversations.AddMessage` | bot/llm/context.py:41-46 | One more message leaves every stored history the longest fitting end of what was added |
| `Conversation.Conversations.EnforceBudget` | bot/llm/context.py:65-83 | The trimming loop reaches the longest fitting end from any stored end that no longer one fits |
| `Conversation.Conversations.TrimHistory` | bot/llm/context.py:55-62 | An explicit trim finds nothing left to trim |
| `Conversation.Conversations.NeedsTrimming` | bot/llm/context.py:49-52 | It answers whether the stored history, empty if there is none, is over the budget, which only a history of at most two items can be |
| `Conversation.Conversations.ClearHistory` | bot/llm/context.py:86-88 | A clear starts the user's history anew and touches no other |
| `Conversation.LongestIsUnique` | bot/llm/context.py:65-83 | The offline definition names exactly one history |
| `Conversation.FittingEndsExactly` | bot/llm/context.py:65-83 | The ends of all messages that fit are exactly those no longer than the stored history |
| `Conversation.NoneLongerWithOneMore` | bot/llm/context.py:65-83 | Messages once dropped could not be kept after any further message, so trimming online loses nothing |
| `RateLimit.RateLimiter.Call` | bot/middleware.py:111-148 | With a nondecreasing clock an event of a user passes exactly when fewer than the limit of accepted ones lie in the window ending with it, although old times are pruned |
| `RateLimit.RateLimiter.EveryWindowIsLimited` | bot/middleware.py:111-148 | Every half-open window of the configured length holds at most the limit of accepted events of a user |
| `RateLimit.RecentTwice` | bot/middleware.py:127-131 | Pruning early loses nothing that a later pruning would keep |
| `RateLimit.Decide` | bot/middleware.py:127-148 | The decision for one user, against all times ever accepted |

## Left out

- Telegram, LLM, speech, embedding and HTTP calls: a send succeeds, raises or dies with the process, and may have arrived although it raised.
- Subprocesses, pg_dump, gzip, launchctl, plists, Git, checksums, file permissions and the lock directory of the journal: port steps that may return, raise or die, and an abstract snapshot taken as faithful.
- Two maintenance processes at once: the journal's exclusive lock is taken to exclude them.
- SQL text, the ORM and isolation levels: a committed transaction is one atomic step. Row locks appear only as rows that a claim skips.
- Time zones and daylight saving: local dates and seconds of the day; one time zone per series. Overflow after the year 9999 does not occur.
- Reading a repeat rule from its text: rules are given as parsed, with one value for every text that parses to none of them.
- The lexing regular expressions of the HTML splitter and Telegram's own entity rules: the input is a sequence of tokens. Mis-nested input is outside the rendering claim.
- The 64 KiB size of reads of the dump: reads of any size are allowed.
- Deleting tasks and retention jobs: rows are not deleted within a modelled run, except in the privacy deletion, whose rows are one count.
- The `DeliveryResult` flags, the query that finds pending batches to resume, metrics, logs and texts shown to users.
- Titles, categories, tags and the daily frog of tasks: one opaque value that successors inherit, without the frog.
- Interaction slots, date markers, configuration checks, exports, digests, settings, intent recognition and the LLM queue: they would add simpler variants of the lease properties, or are tables of patterns and texts.
- `MaintenanceLaunchd._wait_ready` and other polling loops with deadlines: one step that may return, raise or die.
- SeriesProofs.SeriesNeverFork: is stated for calls as the program makes them, failures with a token and task reminders without a rule; SeriesProofs.StepForksExactly covers all calls.
- Lifecycle.RunKeepsInv: takes rows made for a task to belong to the task's owner, as all callers do; the functions themselves do not check it.
- DeliveryBound.DeliveredAtMostSixTimes: is stated for calls as the program makes them; it bounds recorded deliveries, and a crash between a send and its record repeats the send.
- RateLimit.RateLimiter.Call: takes a positive window, as the program configures it.
- Conversation.Conversations.GetHistory: takes the token count of a message as given with the message.
