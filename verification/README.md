# BoxCopy: a verified model of the mailbox migration

BoxCopy copies IMAP mailboxes from one server to another: it asks for confirmation, empties the
target accounts, clears its sync state, copies all mailboxes in parallel, and can afterwards compare
both sides. This project models that run in Dafny and proves what it promises.

## What is modelled

- **The servers** (`Imap.dfy`, `ImapClient.dfy`). An account is a value: folders with attributes,
  UIDVALIDITY, UIDNEXT and messages, following sections 2.3.1.1, 6.3.3, 6.3.4, 6.3.8, 6.3.11, 6.4.3,
  6.4.5 and 6.4.8 of RFC 3501 and section 3 of RFC 4315. An oracle decides about every command: done,
  done without the client learning it, or refused; and about UID gaps, listing orders and what a
  failing command still reached. Nothing is assumed about the oracle unless a statement says so.
- **One message, one folder** (`MessageCopy.dfy`, `Agreement.dfy`, `Epochs.dfy`, `Pipeline.dfy`,
  `Milestones.dfy`, `Conservation.dfy`, `FolderCopy.dfy`). The fetcher goroutine and the copier loop
  are two processes joined by a channel of capacity 2; every interleaving is compared with the
  sequential loop.
- **One mailbox** (`FolderTree.dfy`, `MailboxRun.dfy`, `Mailbox.dfy`, `Faultless.dfy`,
  `Hierarchy.dfy`, `Bookkeeping.dfy`). The `Mailbox` class has the clients and counters of the source as fields; its folder
  copy runs the two processes under an arbitrary scheduler with the context ending at any moment.
- **The sync state** (`SyncState.dfy`, `StateHeap.dfy`, `StateStore.dfy`, `StateFile.dfy`). Linked
  records updated in place are proved against operations on values; saving and loading are sequences
  of disk states.
- **A perform run** (`Cleanup.dfy`, `Tasks.dfy`, `Program.dfy`, `Reachable.dfy`, `Runner.dfy`). The copy
  of a mailbox is also a program of locked calls, which carries at each call the target as the task has
  it in its hands; the worker pool interleaves the programs of all mailboxes in any order and may stop
  anywhere.
- **The verifier** (`Verifier.dfy`, `EndToEnd.dfy`). What its counts and sizes prove, and when it
  agrees with the copy.

The main results are `Runner.PerformCopy`, `Reachable.EveryStateIsFine`, `EndToEnd.WholeIsProven`,
`Pipeline.RefinesSequential`, `FolderCopy.InterruptAndResume`, `FolderCopy.NilMeansCompleteExactly`,
`Hierarchy.NothingElseExactlyIfClosed`, `Hierarchy.SelectableExactlyWithoutEmptyAbove`,
`Tasks.NoInterference`, `MailboxObject.Mailbox.Copy`, `StateStore.CrashSafety` and
`Verifier.EvidenceExactly`. `dafny verify dfyconfig.toml` checks the whole project.

## Assumptions

Mailbox names and target accounts are distinct, and nobody else changes the servers during a run. The
hierarchy delimiter is neither `%` nor a letter of INBOX, and INBOX is spelled in one way only. State
calls are atomic, as the lock of `State` makes them. Where a statement needs acknowledged commands or
messages with a date (section 2.3.3 of RFC 3501), it says so.

## Where the code promises less than it seems

- A nil result of the folder copy does not mean a complete folder when the context is cancelled: the
  fetcher leaves without an error (`FolderCopy.NilWithoutTheMessage`). Nil always means complete exactly
  if the context cannot end or everything is synced already (`FolderCopy.NilMeansCompleteExactly`).
- A UIDVALIDITY change clears the synced UIDs but keeps the UID map, so the two agree within one epoch
  only (`Epochs.ResetKeepsStaleLinks`; the exact condition is `Epochs.ResetKeepsSettled`).
- The documentation says that a dropped or truncated message makes count or size diverge
  (docs/ARCHITECTURE.md:222). A failed size fetch is only logged and counts as 0, so a truncated message
  can pass (`Verifier.TruncationPassesWithoutSizes`). A count that a listing does not carry is taken for
  0, so a dropped message without a body can pass although everything was acknowledged and both sizes
  fetched (`Verifier.DropPassesWithoutCounts`). A passing folder is evidence of a whole copy exactly if
  the source reported its count and, unless the target reported none, answered for its size; the size on
  the target is never needed (`Verifier.EvidenceExactly`).
- Messages flagged as deleted are never copied, so a faithful copy fails verification exactly if there
  are any (`EndToEnd.WholeAndVerifyAgree`).
- A copy of a mailbox may succeed with an empty source folder present on the target as a mere container,
  if its creation failed and a later folder created it as a superior
  (`Hierarchy.EmptyFolderBecomesContainer`). This cannot happen exactly if no empty selectable source
  folder is above another selectable one (`Hierarchy.SelectableExactlyWithoutEmptyAbove`).
- Superiors that a server creates implicitly may stay on the target as selectable folders although they
  are none in the source (`Hierarchy.SelectableSuperiorStays`). "No other selectable folder but INBOX
  remains" holds exactly if every name above a selectable source folder is selectable there or INBOX
  (`Hierarchy.NothingElseExactlyIfClosed`).

## Model

| member | source | states |
|---|---|---|
| Runner.PerformCopy | internal/runner/runner.go:146-275 | for any server answers, faults, stops of the pool, ends of the context and interleavings: not confirmed means nothing is touched; a failed cleaning means nothing is loaded, saved or copied; wherever the pool or the time limit breaks the copy off, every task stands where its records agree with its target and the state file holds cleared records; once the tasks are through, cancelled or not, all records agree with the targets, nothing foreign is on these, and a successful save means the file holds the records; nil without cancellation means every mailbox is home, and against acknowledging targets every UID map is a bijection onto exact images and the verifier passes each mailbox exactly if no message was left out as deleted; if nothing fails, the result is nil; once all tasks are through the last save is tried in any case: if it succeeds a load finds the records of the run and the error counts exactly the mailboxes that failed, nil or a pool error meaning none; a failed save is reported exactly if it failed; past the cleaning the error is that of the first step that fails, exactly; mailboxes that are not configured keep the loaded records |
| Runner.ConfirmCopy | internal/runner/runner.go:279-303 | passes exactly for a first input line that is YES between white space, read without error |
| Runner.GateOpensForYes | internal/runner/runner.go:291-300 | trimming and comparing is the same as the line being "YES" between white space, in both directions |
| Runner.FirstLineEnds | internal/runner/runner.go:284-290 | the line read ends with the first line break of the input, or is all of it |
| Runner.CleanTargets | internal/runner/runner.go:307-351 | all mailboxes that the pool takes are attempted in any order until the wait times out; success means every target is cleaned; each target only ever loses folders and messages; with a willing pool and reachable, acknowledging targets it succeeds |
| Runner.CleanMailbox | internal/runner/runner.go:355-369 | connecting, cleaning and closing one target: only losses, and success means cleaned; every client made is closed once, and success means that this worked |
| Runner.ClearAll | internal/runner/runner.go:181-183 | the records of all configured mailboxes are as new, those of all other mailboxes untouched |
| Runner.Call | internal/state/state.go:66-424 | every locked call on the linked records has the effect and the reply of its operation on values, and sets the dirty flag exactly if the operation does |
| Runner.RunTasks | internal/runner/runner.go:212-267 | every run of the pool is an interleaving of the tasks and ends; unless the wait times out all tasks are through and exactly those that ended with an error are counted |
| Runner.CopyMailboxes | internal/runner/runner.go:217-271 | the copy is some interleaving of the accepted tasks; if all are accepted and the wait does not time out, each mailbox ends with the records, target and result of being copied alone, and the error count is the number of mailboxes that fail alone; all tasks are through, and the errors counted are those of the tasks that ended with one; mailboxes without a task keep their records |
| Runner.TaskIsFine | internal/runner/runner.go:212-267 | a task started on a cleaned target with cleared records stands, after any schedule, where its records agree with the target in its hands |
| Runner.TaskEndsAsAlone | internal/runner/runner.go:221-244 | a finished task in any interleaving, cancelled or not, has the result, target and mailbox record of its mailbox copied alone |
| Runner.CopiedMailbox | internal/runner/runner.go:221-244 | a mailbox copied from cleared records to a cleaned target, cancelled or not: records and target agree and nothing foreign is there; if it did not fail and was not cancelled, it is home; if besides the target acknowledges everything, it is copied exactly |
| Runner.CopyCleared | internal/runner/runner.go:188-271 | the parallel copy from cleared records and cleaned targets: agreement wherever it is broken off, all home on zero errors without cancellation, zero errors if nothing fails |
| Runner.CopyAndSave | internal/runner/runner.go:176-275 | load, clear, save, copy, save: which error, of files, pool or mailboxes, is returned exactly when, and leaves what behind; failed mailboxes do not keep the records of the others from being saved |
| Runner.LoadAndClear | internal/runner/runner.go:176-186 | the cleared records of the configured mailboxes and the loaded ones of all others, on disk before any copying; an unreadable state or a failed save is an error exactly then |
| Tasks.NoInterference | internal/runner/runner.go:212-267 | after any interleaving of locked calls of tasks on distinct mailboxes, each task and the record of its mailbox stand where the same number of its own calls alone would have brought them |
| Tasks.EndsAsAlone | internal/runner/runner.go:212-267 | a task that is through in an interleaving ended as it would have ended alone |
| Tasks.OthersUntouched | internal/state/state.go:73-110 | mailboxes without a task keep their records through any interleaving |
| Tasks.EndIsUnique | internal/runner/runner.go:221-244 | a program of calls has one end only, however many calls it is given |
| Program.MailboxRuns | internal/mailbox/mailbox.go:318-391 | the copy of a mailbox, cut into its locked calls, does alone what `MailboxRun.CopyMailbox` says, wherever the context ends its folders |
| Reachable.EveryStateIsFine | internal/runner/runner.go:212-267 | in every state of every interleaving of any number of tasks, faults and cancellation included: at each call the records of the folder being copied agree with the target of the task, synced and linked UIDs being equal but for the one UID that a `SetUIDMapping` is about to link, and the records of all other folders agree; a task that has ended has all records in agreement |
| Reachable.MailboxSafe | internal/mailbox/mailbox.go:318-391 | the same for one mailbox alone, after any number of its calls |
| Reachable.MessageSafe | internal/mailbox/copy.go:259-321 | the calls of one message keep it: acknowledged, refused, lost, skipped or throttled |
| Program.FolderRuns | internal/mailbox/copy.go:80-256 | the same for one folder |
| Program.MessageRuns | internal/mailbox/copy.go:259-321 | the same for one message |
| Cleanup.CleanTargetMailbox | internal/runner/runner.go:371-447 | success leaves an empty INBOX alone; at every step, failing ones included, folders and messages are a subset of the originals; every DELETE meets a folder without inferiors while no mailbox is selected; with an acknowledging server it succeeds |
| Cleanup.SpelledInbox | internal/runner/runner.go:437-440 | the names taken for INBOX are those of its five letters in any case |
| Cleanup.EmptyFolder | internal/runner/runner.go:381-414 | success empties the folder; folders emptied before stay empty |
| Cleanup.Purge | internal/runner/runner.go:401-414 | mark all and expunge: success empties the selected folder, failure loses nothing but messages of it |
| Cleanup.EmptyFolders | internal/runner/runner.go:376-419 | success empties every selectable folder |
| Cleanup.DeleteFolders | internal/runner/runner.go:431-446 | success leaves INBOX alone, each deletion being safe |
| Cleanup.NoInferiorLeft | internal/runner/runner.go:428-436 | in descending name order the folder to delete has an inferior left if and only if INBOX is one, for every hierarchy delimiter |
| Cleanup.MarkAndExpungeEmpties | internal/runner/runner.go:401-414 | marking all UIDs and expunging leaves no message |
| Cleanup.EffectOfExpunge | internal/imap/message.go:388-401 | EXPUNGE takes away marked messages of the selected folder and nothing else, all of them if acknowledged |
| Cleanup.DeletingStaysWithin | internal/imap/folder.go:88-100 | DELETE of a folder without inferiors removes at most this folder, and exactly it if acknowledged; an acknowledging server does it for any existing folder but INBOX |
| Pipeline.RefinesSequential | internal/mailbox/copy.go:147-237 | every uncancelled interleaving of fetcher and copier over the channel of capacity 2 ends with the worlds, counters, milestones and error of the plain sequential loop that stops at the first failing batch of 50; without a failed fetch it has asked for one batch for each fifty UIDs begun |
| Pipeline.CopiesAPrefix | internal/mailbox/copy.go:193-237 | in every state of every run, cancellation included, the processed messages are a prefix of the delivered ones, processed exactly as in sequence |
| Pipeline.NothingAfterTheEnd | internal/mailbox/copy.go:164-211 | once the context has ended nothing more is copied, whatever is still in the channel, and nothing is asked for but the batch in the hands of the fetcher |
| Pipeline.SequentialIsDelivered | internal/mailbox/copy.go:162-237 | the sequential loop processes the delivered messages in order and fails if a fetch did |
| Pipeline.ProcessIsCopyAll | internal/mailbox/copy.go:204-236 | the copier counts exactly the failures of `CopyAll`, in step with the milestones |
| Pipeline.StuckMeansFinished | internal/mailbox/copy.go:154-237 | no deadlock: neither process can step exactly when the copier is done; the channel never holds more than two batches, and only a full one keeps the fetcher from sending |
| Pipeline.EveryStepDescends | internal/mailbox/copy.go:154-237 | every step of every schedule makes a well-founded measure smaller |
| Pipeline.ClosedBeforeReturn | internal/mailbox/copy.go:157-237 | when the copier loop ends the channel is closed and drained, so the disconnect that may follow overlaps no fetch |
| Pipeline.RequestsMade | internal/mailbox/copy.go:162-181 | a finished run without failed fetch has asked for one batch for each fifty UIDs begun; with one it has stopped there |
| Pipeline.UpcomingCount | internal/mailbox/copy.go:162-181 | from any position on, an undisturbed fetcher asks for one batch for each fifty UIDs begun |
| Pipeline.RequestsAreFifties | internal/mailbox/copy.go:159-173 | request number k asks for the fifty UIDs from number 50 * k on, or what is left of them |
| Pipeline.NilWithoutCancellation | internal/mailbox/copy.go:239-250 | without cancellation nil is returned exactly if no fetch and no message failed |
| Pipeline.NilWithCancellation | internal/mailbox/copy.go:162-166 | under cancellation nil means that all that was fetched was copied; the folder is complete exactly if the fetcher passed its check of the context for every batch |
| Pipeline.NilDespiteMissing | internal/mailbox/copy.go:164-166 | every folder copy has a run that returns nil and has copied nothing: the context ends before the first batch |
| Pipeline.RunKeepsInv | internal/mailbox/copy.go:147-237 | the invariant of every state of every run: nothing delivered is lost between fetcher, channel and copier |
| Milestones.MilestoneCount | internal/mailbox/copy.go:184-235 | after i of total messages exactly min(i, (i*100/total)/progress) milestones are logged |
| Milestones.CompleteCount | internal/mailbox/copy.go:184-235 | a complete folder logs min(total, 100/progress) milestones |
| Milestones.MilestonePosition | internal/mailbox/copy.go:225-234 | with progress*total >= 100 milestone k is logged exactly at message ceil(k*progress*total/100) |
| Milestones.MilestonesOff | internal/mailbox/copy.go:224-225 | none are logged for a progress setting outside 1..100 |
| MessageCopy.CopyMessageConserves | internal/mailbox/copy.go:259-321 | one message is copied, skipped or failed, with the matching changes of counters, records and target |
| MessageCopy.CopyAllConserves | internal/mailbox/copy.go:193-237 | over a run: copied, skipped and failed add up; bytes are those of the acknowledged bodies; the target grows by at least the copied and at most the copied and failed |
| MessageCopy.CopyAllCounts | internal/mailbox/copy.go:193-246 | whatever the target is like, the number of failures is what copied and skipped leave over of the messages |
| MessageCopy.CopyAllSyncs | internal/mailbox/copy.go:309-313 | exactly the acknowledged UIDs become synced |
| MessageCopy.AcknowledgedOnce | internal/mailbox/copy.go:265-269 | no UID is acknowledged twice in a run, nor one that was synced before |
| MessageCopy.AcknowledgedRecord | internal/mailbox/copy.go:297-313 | an acknowledged append leaves its UID synced and linked to the acknowledged target UID |
| Conservation.PipelineConserves | internal/mailbox/copy.go:193-237 | the same bookkeeping in every state of every run of the pipeline, cancellation included, and the synced set grows by the copied count |
| Conservation.SyncedGrowsByAcknowledged | internal/mailbox/copy.go:309-313 | the synced set grows by one UID per acknowledged append |
| Agreement.MessageKeepsAgreement | internal/mailbox/copy.go:259-321 | at each moment of copying a message, faults included, every UID link leads to an image of its source message, links are synced, at most this one UID is synced without a link, and none at the boundary |
| Agreement.RunKeepsAgreement | internal/mailbox/copy.go:193-237 | the same over any run; nothing synced or linked is lost, and a run without failure syncs all its live messages |
| Agreement.MessageKeepsExact | internal/mailbox/copy.go:297-313 | if no reply is lost, the target holds nothing but the earlier messages and the linked images |
| Agreement.RunKeepsExact | internal/mailbox/copy.go:193-237 | the same over any run |
| Agreement.MessageGrowsRecord | internal/mailbox/copy.go:259-321 | a message adds at most its own UID to the record; unless deleted, success leaves it synced |
| Epochs.ResetKeepsSettled | internal/state/state.go:149-161 | a UIDVALIDITY change keeps synced UIDs and UID map on the same domain exactly if the old value was 0 or equal, or the map empty; synced stays within the map always |
| Epochs.ResetKeepsStaleLinks | internal/state/state.go:156-161 | a record whose reset leaves a link of the old epoch behind |
| Epochs.MessageKeepsCovered | internal/mailbox/copy.go:297-313 | across epochs: synced UIDs are linked, but for the message being copied |
| Epochs.FolderKeepsCovered | internal/mailbox/copy.go:80-256 | however a folder copy of any epoch ends, cancellation included, its synced UIDs are linked |
| FolderCopy.CopyFolderOutcome | internal/mailbox/copy.go:80-256 | however a folder copy ends, by success, fault or cancellation, the records stay ready to be continued and lose no synced UID; nil without cancellation means the folder is complete |
| FolderCopy.UndisturbedIsSequential | internal/mailbox/copy.go:185-250 | the loop that the context leaves alone has the worlds, failures and error of the plain sequential one |
| FolderCopy.NilMeansCompleteExactly | internal/mailbox/copy.go:162-250 | for every source folder and all server answers and schedules: nil always means complete if and only if the context cannot end or everything live is synced already |
| FolderCopy.NilLeavesIncomplete | internal/mailbox/copy.go:162-166 | every folder with an unsynced live message has a run that returns nil, as one of its possible ends, and leaves it incomplete |
| FolderCopy.NilWithoutTheMessage | internal/mailbox/copy.go:162-166 | a concrete source folder with one message whose copy returns nil with an empty target |
| FolderCopy.LoopOutcome | internal/mailbox/copy.go:147-255 | the same for the pipeline and the final time stamp |
| FolderCopy.OpenKeepsReady | internal/mailbox/copy.go:88-140 | the opening steps change neither server, keep the records ready, and list exactly the unsynced UIDs |
| FolderCopy.OpenComesTo | internal/mailbox/copy.go:88-140 | for any records: what is listed for copying are exactly the messages not recorded as synced, or all after a change of a known UIDVALIDITY; if that is nothing all messages of the folder count as skipped, else no counter moves |
| FolderCopy.OpenKeepsStamps | internal/mailbox/copy.go:88-140 | the opening steps leave the time stamp and the sync count of the mailbox alone |
| FolderCopy.DeliversSource | internal/mailbox/copy.go:173-176 | what the pipeline delivers is what the source holds |
| FolderCopy.DeliversAll | internal/mailbox/copy.go:162-181 | if no fetch fails every requested UID that has a message is delivered |
| FolderCopy.DeliveredCount | internal/mailbox/copy.go:162-181 | if no fetch fails, as many messages are delivered as there were UIDs to ask for |
| FolderCopy.InterruptAndResume | internal/mailbox/copy.go:127-140 | stopping in any state of any schedule and copying again to success gives the same target images as one uninterrupted successful copy; unless a reply was lost nothing else is on the target, so nothing is there twice |
| FolderCopy.AcknowledgedOnceOverRuns | internal/mailbox/copy.go:265-269 | a message acknowledged in one run is never acknowledged in a later one |
| FolderCopy.FurtherRunAppendsNothing | internal/mailbox/copy.go:127-140 | copying a complete folder again appends and records nothing, whatever the servers answer |
| FolderCopy.CompleteMeansExpected | internal/mailbox/copy.go:297-313 | the images of a complete folder have the body, date and settable flags of the live source messages |
| FolderCopy.CompleteAndCleanCount | internal/mailbox/copy.go:193-237 | a complete folder without lost replies holds the earlier messages and one image per live message |
| MailboxObject.Mailbox.AppendMessage | internal/mailbox/copy.go:297-321 | append and the two recording calls on the linked records are the function `MessageCopy.AppendMessage`, and the worlds passed through are exactly `MessageCopy.AppendMoments` |
| MailboxObject.Mailbox.CopyMessage | internal/mailbox/copy.go:259-294 | a message without UID fails; one that is synced or flagged \Deleted is skipped and counted without asking throttle or target; any other one asks the throttle once and, admitted, is appended with its settable flags, date and body, and on acknowledgement recorded and counted; what others can observe meanwhile is exactly `MessageCopy.Moments` |
| MailboxObject.Mailbox.FetcherMoves | internal/mailbox/copy.go:157-182 | each step of the fetcher goroutine is the fetcher step of the state machine; its requests are for the UIDs in order, fifty at a time, and none is made once the context has ended |
| MailboxObject.Mailbox.CopierMoves | internal/mailbox/copy.go:193-237 | each step of the copier loop is the copier step of the state machine; none touches world or counters once the context has ended |
| MailboxObject.Mailbox.Schedule | internal/mailbox/copy.go:154-237 | an arbitrary scheduler always finds a process that can step |
| MailboxObject.Mailbox.Drive | internal/mailbox/copy.go:154-237 | every schedule ends, in a state of the invariant |
| MailboxObject.Mailbox.RunPipeline | internal/mailbox/copy.go:147-250 | for every schedule and end of the context: world, error and number of requests are those of a first part of the delivered messages copied in sequence, all of them unless the context ends; the k-th request is for the UIDs from number 50 * k on, and undisturbed without failed fetch there are (n + 49) / 50; the error for failed messages has their number |
| MailboxObject.Mailbox.PrepareFolder | internal/mailbox/copy.go:99-140 | from selecting the target to the unsynced UIDs it is the function `FolderCopy.Prepare` |
| MailboxObject.Mailbox.OpenFolder | internal/mailbox/copy.go:88-140 | it is the function `FolderCopy.Open`; what is listed for copying, and what counts as skipped, is told by the folder and its record; there is something to copy only with both folders selected |
| MailboxObject.Mailbox.CopyFolder | internal/mailbox/copy.go:80-256 | disconnected it does nothing; else it is the function `FolderCopy.CopyFolder` with some ending for every schedule, undisturbed unless the context ends; nil means that all that was to do is copied or skipped, requested by fifties, and folder and mailbox stamped; an error for failed messages has their number, and no error stamps |
| MailboxObject.Mailbox.CreateFolders | internal/mailbox/copy.go:51-66 | the creation loop is the function `FolderTree.CreateMissing`: one CREATE for each selectable entry not present, in order, and the acknowledged ones counted |
| MailboxObject.Mailbox.CopyFolders | internal/mailbox/copy.go:17-77 | it fails exactly if a listing is not answered; else, whatever the answers, the CREATEs sent are for the selectable source folders that the target lacks, in ascending order, and foldersCreated grows by the number of those acknowledged |
| MailboxObject.Mailbox.Connect | internal/mailbox/mailbox.go:227-280 | afterwards both clients are set or both nil; a lone source client was closed; it fails exactly if a dial does |
| MailboxObject.Mailbox.Disconnect | internal/mailbox/mailbox.go:282-316 | both clients are dropped and closed once; true exactly if both said goodbye |
| MailboxObject.Mailbox.CopyRound | internal/mailbox/mailbox.go:347-370 | one folder; after a failure all old clients are closed and both servers dialled again, after a success nothing of that; it is the function `MailboxRun.Round` |
| MailboxObject.Mailbox.CopyEach | internal/mailbox/mailbox.go:345-370 | the selectable folders are copied in the order of the listing, all of them unless a reconnect fails, and the errors counted are those of the folder copies; it is the function `MailboxRun.CopyEach` |
| MailboxObject.Mailbox.CopyListed | internal/mailbox/mailbox.go:338-390 | from the second listing to the time stamp it is the function `MailboxRun.CopyListed`; once the listing has arrived the mailbox is stamped and its sync count rises |
| MailboxObject.Mailbox.Copy | internal/mailbox/mailbox.go:318-391 | for every pattern of dial, close and folder failures and cancellation: both clients nil at the end, every dialled client closed exactly once, no folder copy begun disconnected; the outcome is `MailboxRun.CopyMailbox` for some endings of the folders, none of them disturbed unless the context ends; agreement of the records kept; which error is returned exactly when, FoldersFailed(n) for n failed folder copies; past its listings it stamps the mailbox and raises its sync count, and without folder errors each selectable folder was copied once |
| MailboxRun.SuccessMeansHome | internal/mailbox/mailbox.go:318-391 | nil without cancellation from a fresh start means every selectable source folder has arrived whole, whatever faults were survived, and nothing foreign is on the target |
| MailboxRun.SuccessMeansComplete | internal/mailbox/mailbox.go:318-391 | with an acknowledging target every selectable source folder is complete there and holds nothing else |
| MailboxRun.CopyMailboxKeepsSound | internal/mailbox/mailbox.go:318-391 | however many commands fail and wherever the context ends, after the copy of a mailbox the records of all its folders agree with the target |
| MailboxRun.CopyFolderKeepsSound | internal/mailbox/copy.go:80-256 | however one folder copy ends, cancellation included, the records of all folders keep agreeing with the target |
| MailboxRun.NothingForeignAfterwards | internal/mailbox/mailbox.go:318-391 | whatever fails or is cancelled, a copy from a fresh start leaves on the target only INBOX and source folders, selectable, and folders above missing ones; only source folders hold messages |
| MailboxRun.CopyEachKeepsAttributes | internal/mailbox/mailbox.go:345-370 | no folder goes away or changes its attributes while others are copied |
| Bookkeeping.ListedSelectable | internal/mailbox/mailbox.go:338-346 | going through a listing meets each selectable folder once |
| Hierarchy.NothingElseExactlyIfClosed | internal/mailbox/copy.go:45-66 | all successful fault-free copies leave nothing selectable but INBOX and source folders if and only if every name above a selectable source folder is INBOX or selectable itself |
| Hierarchy.ClosedLeavesNothingElse | internal/mailbox/copy.go:45-66 | with such a source nothing else is left, whatever fails or is cancelled |
| Hierarchy.SelectableExactlyWithoutEmptyAbove | internal/mailbox/copy.go:57-65 | nil without cancellation always means that all selectable source folders are selectable on the target if and only if no empty one of them is above another |
| Hierarchy.SelectableSuperiorStays | internal/mailbox/copy.go:55-57 | a source with the container A and the folder A/B whose fault-free copy leaves A selectable |
| Hierarchy.EmptyFolderBecomesContainer | internal/mailbox/copy.go:57-65 | a source with the empty folder A and the folder A/B whose copy returns nil with A as a mere container, its CREATE having been refused |
| MailboxRun.CopyFolderElsewhere | internal/mailbox/copy.go:80-256 | copying one folder leaves all other folders, records and mailboxes as they are, new empty superiors aside |
| MailboxRun.CopyEachBringsHome | internal/mailbox/mailbox.go:345-370 | a loop that counts no error brings all listed folders home |
| MailboxRun.CopyFoldersEffect | internal/mailbox/copy.go:17-77 | the folder structure step changes no record and adds only wanted, empty folders |
| Bookkeeping.SortedAreMissing | internal/mailbox/copy.go:38-57 | going through the sorted listing meets each selectable folder that the target lacks once, in ascending order |
| MailboxRun.CopyFoldersMakesSelectable | internal/mailbox/copy.go:45-66 | with an acknowledging target every selectable source folder becomes selectable there |
| MailboxRun.ScratchOutcome | internal/mailbox/copy.go:80-256 | a nil folder copy without earlier records has brought the folder over |
| Faultless.MailboxSucceeds | internal/mailbox/mailbox.go:318-391 | with every command acknowledged, every connection made, an idle throttle and UIDs enough, the copy of a mailbox returns nil |
| Faultless.FolderSucceeds | internal/mailbox/copy.go:80-256 | the same for one folder |
| FolderTree.SortIsSorted | internal/mailbox/copy.go:45-49 | the name sort is ordered and keeps the entries |
| FolderTree.AllMissingAreCreated | internal/mailbox/copy.go:45-66 | in ascending order every CREATE meets a free name, so with acknowledged commands all missing selectable folders appear and are counted, and nothing else but empty superiors |
| FolderTree.SuperiorsExistBefore | internal/mailbox/copy.go:45-57 | when the turn of a folder comes, each selectable superior of it exists |
| FolderTree.ChildrenFirst | internal/runner/runner.go:428-435 | in descending order inferiors come before superiors, for any delimiter |
| FolderTree.ParentsFirst | internal/mailbox/copy.go:45-49 | in ascending order superiors come before inferiors, for any delimiter |
| Basics.LessAtDifference | internal/mailbox/copy.go:45-49 | of two different strings the first different character decides which is the lesser |
| Imap.ExistenceTestIsExact | internal/imap/folder.go:170-192 | the existence test by LIST pattern is exact for every name |
| Imap.NameMatchesItself | internal/imap/folder.go:174-182 | every name matches itself as a LIST pattern, wildcards in it included |
| Imap.SettableKeepsAllOthers | internal/imap/message.go:276-290 | the settable flags are all but `\Recent`, with their multiplicity |
| Imap.SelectableByAttributes | internal/imap/folder.go:208-221 | exactly the attributes \Noselect and \NonExistent keep a folder from being selected |
| Imap.MarkedAreDeleted | internal/imap/message.go:350-385 | after an acknowledged marking all listed messages have the flag \Deleted, and all messages their other flags |
| Imap.SizeIsOrderFree | internal/imap/message.go:238-273 | the size total does not depend on the order of the answers |
| ImapClient.ClientSettableFlags | internal/imap/message.go:282-290 | the loop keeps exactly the flags but `\Recent` |
| ImapClient.HasFlag | internal/imap/message.go:524-531 | true exactly if the flag is in the list |
| ImapClient.AddSizes | internal/imap/message.go:250-266 | the sum is the folder total modulo 2^64, in any order of answers |
| ImapClient.Client.FetchAllSizes | internal/imap/message.go:238-273 | the 64-bit total of the selected folder, or an error |
| ImapClient.Client.FetchByUID | internal/imap/message.go:182-208 | no request for no UIDs, else the messages of those UIDs that exist |
| ImapClient.Client.FetchAll | internal/imap/message.go:212-233 | all messages of the selected folder |
| ImapClient.Client.Append | internal/imap/message.go:293-332 | appended and acknowledged, appended but reported as failed, or not appended |
| ImapClient.Client.MarkDeleted | internal/imap/message.go:350-385 | after an acknowledged call all listed messages have the flag \Deleted; otherwise some of them may |
| FolderTree.ListingNamesAll | internal/imap/folder.go:25-70 | a listing has every folder of the account once, with its attributes |
| FolderTree.EffectOfCreate | internal/imap/folder.go:73-85 | CREATE leaves the existing folders alone; what is new is empty and the folder itself, selectable, or above it; success means it is there |
| ImapClient.Client.FolderExists | internal/imap/folder.go:170-192 | of all names found by the pattern only the exact one counts |
| ImapClient.Client.EnsureFolder | internal/imap/folder.go:195-206 | creates only what does not exist; an error of the test is passed on |
| ImapClient.Client.Select | internal/imap/client.go:186-232 | the selected mailbox changes only on success (SELECT and EXAMINE) |
| ImapClient.Client.Unselect | internal/imap/client.go:235-249 | no command without a selected mailbox; afterwards none is selected on success |
| ImapClient.Client.Close | internal/imap/client.go:139-166 | one more close of this client; once the connection has been closed, closing again sends nothing and reports no error |
| SyncState.ApplyKeeps | internal/state/state.go:143-240 | each operation keeps: 0 is never synced, and the high-water mark is the maximum of the synced UIDs, 0 if there are none |
| SyncState.CallsKeep | internal/state/state.go:143-424 | the same over any sequence of operations |
| SyncState.HighestIsMaximum | internal/state/state.go:316-330 | the high-water mark is the last UID of the ascending listing, and 0 exactly for the empty set |
| SyncState.CleanCallChangesNothing | internal/state/state.go:73-240 | an operation that leaves the dirty flag alone changes nothing |
| SyncState.ApplyIsLocal | internal/state/state.go:73-110 | a call on one mailbox neither reads nor writes the record of another |
| SyncState.OutsideCounts | internal/state/state.go:294-314 | the unsynced UIDs are those outside the synced set, with their multiplicity |
| SyncState.OutsideSplits | internal/state/state.go:307-313 | filtering keeps the order |
| SyncState.MarkAllSynced | internal/state/state.go:204-223 | marking many syncs exactly the listed UIDs but 0 |
| StateHeap.State.SetUIDValidity | internal/state/state.go:143-165 | a changed known value sets synced UIDs, high-water mark and time stamp back and keeps the UID map, true exactly then; else only the value changes; no other record is touched |
| StateHeap.State.MarkSynced | internal/state/state.go:185-200 | the UID joins the synced set and the mark is the larger of both; 0 changes nothing; nothing else is touched |
| StateHeap.State.MarkMultipleSynced | internal/state/state.go:204-223 | all listed UIDs but 0 join the synced set, the mark stays its maximum; nothing else is touched |
| StateHeap.State.SetUIDMapping | internal/state/state.go:226-240 | the link is recorded, the other links kept, unless a UID is 0; nothing else is touched |
| StateHeap.State.UpdateLastSync | internal/state/state.go:349-362 | folder and mailbox have the given time, the mailbox one sync more (1 if new), the folder record all else as before; other folders and mailboxes are untouched |
| StateHeap.State.UpdateMailboxLastSync | internal/state/state.go:366-374 | the mailbox has the given time and one sync more (1 if new); its folders and all other mailboxes are untouched |
| StateHeap.State.ClearFolder | internal/state/state.go:393-410 | an existing folder record loses synced UIDs, UID map, mark, time and UIDVALIDITY and is dirty exactly then; nothing else is touched |
| StateHeap.State.ClearMailbox | internal/state/state.go:413-424 | an existing mailbox record is replaced by an empty one, dirty exactly then; the others are untouched |
| StateHeap.State.GetOrCreateMailbox | internal/state/state.go:73-85 | finds the record, or links a new one and sets the dirty flag |
| StateHeap.State.GetOrCreateFolder | internal/state/state.go:95-110 | the same for a folder record |
| StateHeap.State.GetUnsyncedUIDs | internal/state/state.go:294-314 | the order-preserving filter of its input by non-membership in the synced set |
| StateHeap.State.IsSynced | internal/state/state.go:278-291 | membership in the synced set |
| StateHeap.State.GetTargetUID | internal/state/state.go:243-257 | the recorded link, if any |
| StateHeap.State.GetUIDValidity | internal/state/state.go:168-181 | the recorded value, 0 without record |
| StateHeap.State.GetHighestSyncedUID | internal/state/state.go:317-330 | the high-water mark, 0 without record |
| StateHeap.State.GetSyncedCount | internal/state/state.go:333-346 | the size of the synced set |
| StateHeap.State.UpdateRecord | internal/state/state.go:143-240 | an in-place edit of one record changes this record and no other |
| StateHeap.State.Restore | internal/state/store.go:55-73 | the linked records built by a load hold the loaded contents, clean |
| StateStore.RoundTrip | internal/state/store.go:28-119 | decoding what was encoded gives back the same mailbox data |
| StateStore.EncodedIsSame | internal/state/store.go:85-95 | a state file is of version 1 and has every record field in its own member, no missing members, and ascending UID lists |
| StateStore.DecodedIsSame | internal/state/store.go:56-73 | a load gives every member of a document to its own record field, missing collections being empty |
| StateStore.SortedIsCanonical | internal/state/store.go:134-138 | a UID set has one encoding, the strictly ascending list, whatever the map iteration order |
| StateStore.MarshalUIDSet | internal/state/store.go:134-138 | the canonical list of the set |
| StateStore.UnmarshalUIDSet | internal/state/store.go:141-152 | the set of the listed UIDs, inverse to the encoding |
| StateStore.CrashIsOldOrNew | internal/state/store.go:87-119 | a crash at any step of one act leaves the old state or the new one |
| StateStore.CrashSafety | internal/state/store.go:28-131 | a crash anywhere in any run of calls, saves and loads leaves the initial state or the contents of some earlier moment |
| StateStore.PerformKeepsPromise | internal/state/store.go:79-131 | one act keeps: a clear dirty flag means a load would find the contents in memory |
| StateStore.RunKeepsPromise | internal/state/store.go:79-131 | the same over every run of calls, successful and failed saves and reloads |
| StateStore.RunKeepsRecords | internal/state/store.go:28-131 | the record invariant survives saves and loads too |
| StateFile.Save | internal/state/store.go:79-119 | the disk passes through exactly the steps of the model; it succeeds exactly if directory, writing and renaming do; then the file is a whole document of version 1 with the records, no temporary file is left, a load finds the contents and the dirty flag is clear; failure leaves the state file alone |
| StateFile.SaveIfDirty | internal/state/store.go:122-131 | nothing without the dirty flag, else a save, after which a load finds the contents |
| StateFile.Load | internal/state/store.go:28-76 | no state comes back if and only if the file cannot be read, is cut short, or is of a version above 1, each with its own error; a missing file is an empty state; else the records are those of the document, field by field, and clean; a stale temporary file is dropped |
| Verifier.OK | internal/verifier/verifier.go:46-56 | true exactly without error, missing folder and differing folder |
| Verifier.VerifyMailbox | internal/verifier/verifier.go:111-228 | without error the missing folders are those selectable on the source only, the extra ones those selectable on the target only, and the compared ones those of both, all ascending, with the listed counts and the true 64-bit sizes as far as answered; each error exactly when a connection, listing or closing fails; both accounts unchanged; each client made is closed once |
| Verifier.Compare | internal/verifier/verifier.go:142-227 | the comparison on connected clients is the function `Verifier.Verify` |
| Verifier.VerifyReports | internal/verifier/verifier.go:142-227 | what `Verifier.Verify` reports, told of the two accounts alone: the folders missing, extra and common, their counts and sizes, and the errors of the listings |
| Verifier.CompareAll | internal/verifier/verifier.go:199-225 | the loop over the common folders, failed size fetches counting as 0 |
| Verifier.BuildCountMap | internal/verifier/verifier.go:154-174 | the message counts of the selectable folders |
| Verifier.FolderTotalSize | internal/verifier/verifier.go:232-241 | 0 without a request for an empty folder, else the fetched total |
| Verifier.PassesExactlyOnSameTotals | internal/verifier/verifier.go:153-227 | with reliable servers the mailbox passes exactly if every selectable source folder is selectable on the target with the same count and 64-bit size |
| Verifier.TotalNeverWraps | internal/imap/message.go:248-266 | with 32-bit counts and sizes the 64-bit sum cannot wrap |
| Verifier.EqualTotalsMeanIntact | internal/verifier/verifier.go:29-31 | a folder that arose by dropping messages or cutting bodies and has equal count and size lost nothing |
| Verifier.PassingMeansIntact | internal/verifier/verifier.go:46-56 | for a folder of a passing mailbox that arose by dropping messages or cutting bodies: nothing was lost if at its turn the source reported its count and answered for its size (or the target reported no count) |
| Verifier.VerdictAtTurn | internal/verifier/verifier.go:199-225 | every folder is judged by the listed counts and by the sizes its two servers answer at its own turn |
| Verifier.TruncationPassesWithoutSizes | internal/verifier/verifier.go:206-222 | a truncated message passes the whole verification if the size of the source cannot be fetched |
| Verifier.EvidenceExactly | internal/verifier/verifier.go:158-222 | for given answers of the two servers, passing the comparison rules out any dropping and cutting for all contents if and only if the source reports its message count and, unless the target reports none, answers for its size |
| Verifier.DropPassesWithoutCounts | internal/verifier/verifier.go:158-164 | a dropped message without a body passes the whole verification if the source reports no counts, though every command is acknowledged and both sizes are fetched |
| Verifier.PassesLikeInbox | internal/verifier/verifier.go:199-225 | with INBOX alone on both sides the mailbox passes exactly if this folder does |
| EndToEnd.WholeAndVerifyAgree | internal/verifier/verifier.go:153-227 | the verifier passes a wholly copied mailbox if and only if no selectable source folder holds a message flagged Deleted |
| EndToEnd.CopyAndVerifyAgree | internal/mailbox/copy.go:272-278 | the same right after a successful copy of a mailbox against an acknowledging target |
| EndToEnd.CopiedIsExactImage | internal/mailbox/copy.go:297-313 | the UID map is a bijection from the live source messages to all messages of the target folder, and the images are the expected ones |
| EndToEnd.WholeIsProven | internal/verifier/verifier.go:153-227 | a whole copy has exact images in all folders, and the verifier passes it, for all reliable answers, exactly if no source message is flagged Deleted |
| EndToEnd.TotalsAgreeUnlessDeleted | internal/mailbox/copy.go:272-278 | count and size of a copied folder equal those of its source exactly if no message was left out as deleted |
| EndToEnd.SuccessMeansWhole | internal/mailbox/mailbox.go:318-391 | a successful copy against an acknowledging target is whole |

## Left out

- Connection set-up, TLS, login and the keepalive goroutine: a connection attempt is a yes or no.
- Configuration, command line, prompts, reports and logging; clock values are opaque parameters.
- The inner workings of throttle and worker pool: the throttle runs its task or gives up with an error;
  the pool opens or not, accepts so many tasks, interleaves them in any order, times out or not after so
  many turns, and stops with or without an error.
- The cleaning tasks run one after another in arbitrary order: they share nothing but the error count.
- Tasks.NoInterference: the steps of a task between two locked calls touch its own servers and counters
  only and are taken together; the shared throttle answers each mailbox independently.
- MailboxRun.CopyMailbox: the end of the context is told by the endings of the single folders, which may
  be any; that one context ends for all folders and mailboxes at the same time is not used.
- Runner.RunTasks: the effects of a task on its own target become visible to the others when the pool
  is done; no other task looks at them.
- `sort.Slice`, `sort.Strings` and `slices.Sort` are stood for by insertion into a sorted sequence.
- The text syntax of JSON and null entries inside its maps.
- Loss of power between writing and renaming the state file: there is no cache model below the file
  operations.
- The status, last error and last sync fields of a mailbox object, which only feed reports.
- Client operations that neither copying nor cleaning nor verifying uses, envelopes, `Export` and
  `Stats`.
- `ImapClient.Client.Select` stands for SELECT and EXAMINE; the `\Recent` flag of the source is not
  changed by either in the model.
- Writing through the record pointers that `GetMailbox` and `GetFolder` hand out.
