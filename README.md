# MailDruid scheduling and incremental mail sync, in Dafny

MailDruid mails each of its users a summary of the new messages in their
mailbox whose subject carries one of the user's tags. The repository has
three parts, and this project models each of them with its properties proved:

- **`scheduler.dfy` (module `Scheduler`).** The interval registry of
  `components/scheduler/scheduler.go`. It maps an update interval to the
  ordered ids of its users. The model covers:
  - the start-up bootstrap, scheduling, both deletions, rescheduling, and the
    `remove` slice helper;
  - the ticker period that `Schedule` computes, and one tick of a worker.

  The registry is the class `TaskManager`, whose methods update its fields.
  Each method is proved equal to a step function on a `Registry` value, and
  the properties are lemmas about those step functions. The model keeps these
  behaviours of the code as written:
  - the one context that every worker shares;
  - the mutex that `DeleteTask` can leave held;
  - the fatal unlock of an unlocked mutex in `UpdateTask`;
  - the mutex that a ticker panic in `ScheduleNewTask` or `UpdateTask` leaves
    held, because the HTTP server recovers that panic;
  - the way `remove` shifts the array the range loop is still reading.
- **`pipeline.dfy` (module `Pipeline`).** `GenerateSummaryandWordCloud` of
  `components/user/pipeline.go` up to the summariser. That covers the tag
  check, the per-tag watermark (default, minimum, clamp to the highest UID),
  the fetch, the new watermark written before filtering, the filter and the
  aggregated body. `GenerateSummary` is an imperative method proved equal to
  the function `Pipeline`, and the lemmas are about `Pipeline`.
- **`email.dfy` (module `Email`).** The message selection of
  `components/platform/email/email.go`:
  - the range `count:*`, taken as a UID range (section 6.4.8 of RFC 3501);
  - `getSender`, `checkBlackListSenders`, `checkTime`, `filterTags`,
    `FilterEmailsByTag` and `AggregateEmailBody`.
- **`wrappers.dfy`.** `Option` and `Result`.

A mailbox is the sequence of its messages in ascending UID order. The user
store is a map from user id to stored interval. Outcomes that never return
are these `Outcome` values:
- `Blocked`: the call waits forever on a held mutex.
- `Crashed`: the process ends. This is the fatal unlock of a free mutex, or a
  ticker panic during the start-up bootstrap, which runs outside the HTTP server.
- `Panicked`: a ticker panic inside a request handler. The server's `Recover`
  middleware (`server/server.go` line 21) turns it into an error response. The
  mutex the handler took stays held, so every later registry call blocks
  (`PanicBlocksLaterCalls`).

## Where the code and the design description disagree

The model follows the code in each case.

- **The watermark is not monotone.** A stored mark above the mailbox's
  highest UID is clamped down to that UID and written back
  (`WatermarkCanDecrease`).
- **A second run is not idempotent.** The range `n:*` always holds the newest
  message. A second run over an unchanged mailbox fetches that message again
  and, if it matches a tag, summarises it again (`RerunRepeatsNewest`).
- **"Each id is in at most one group" is not an invariant.** It holds only
  while callers pass the user's real interval (`UpdateTaskConsistent`).
  `DeleteTask` with another existing interval leaves the user in its old group
  while storing "0" (`MismatchedDeleteSharesId`).
- **Cancellation is global.** An emptied group cancels every worker, not only
  its own. A group created later gets a worker that never ticks (`Tick`,
  `CancelIsPermanent`). `DeleteTaskforUser` cancels even for a user without a
  group (`DeleteWithoutGroupCancels`).
- **A tick holds the mutex throughout.** It keeps the registry mutex for the
  whole dispatch and mails members one after another. It does not take a
  snapshot and release the lock (`TaskManager.Tick`).
- **An empty mailbox is reported as an error.** Only "no emails found with
  tags" gets the informational mail; an empty mailbox ("no emails found") gets
  an error mail (`Notify`).
- **"no summary" cannot happen while the refetch returns what was asked
  for.** Every run that reaches the aggregation has at least one message, and
  each message adds ". " (`NoSummaryUnreachable`). This rests on the refetch
  by UID returning the messages the fetch returned (see "Left out").
- **The bootstrap can start two workers for one interval.** Two users read
  with the same interval each call `Schedule`, so two workers share one key
  (`BootstrapStarted`). The group keeps only the last of those users
  (`BootstrapLastWins`), so on each tick both workers mail that user and the
  other users read with that interval are never mailed.

## Model

| member | source | states |
|---|---|---|
| `Email.GetEmailsRange` | components/platform/email/email.go:36-47 | the messages fetched for `count:*` are a suffix of the mailbox; an index is in it iff its UID is at least `count` or it is the newest message; the newest message is always last |
| `Email.GetEmailsMembers` | components/platform/email/email.go:36-47 | a message is fetched iff its UID is at least `count` or it is the newest one, so the UID at the old watermark is fetched again |
| `Email.GetEmailsNewest` | components/platform/email/email.go:38 | on a non-empty mailbox the range is never empty and ends with the newest message, even when `count` is above every UID |
| `Email.GetEmailsAscending` | components/platform/email/email.go:36-47 | the fetched messages are ascending, so their UIDs are distinct |
| `Email.GetSender` | components/platform/email/email.go:78-83 | returns an address of the From set and no error when it is non-empty, and "" with an error when it is empty |
| `Email.GetEmails` | components/platform/email/email.go:36-47 | named by its lemmas: `GetEmailsRange`, `GetEmailsMembers`, `GetEmailsNewest` and `GetEmailsAscending` state what it returns |
| `Email.CheckTime` | components/platform/email/email.go:98-108 | a zero start time admits every message; a message sent exactly at a non-zero start is rejected |
| `Email.CheckTimeLaterStart` | components/platform/email/email.go:98-108 | moving a positive start time later only drops messages, namely those sent after the earlier start and no later than the new one |
| `Email.CheckBlackListSenders` | components/platform/email/email.go:85-96 | true iff some blacklist entry equals the sender's address exactly (a sender-less message compares as ""); false for an empty blacklist |
| `Email.FilterTags` | components/platform/email/email.go:110-125 | "no tags provided" for an empty tag list, otherwise the UID list of the walk over messages and tags: lower-cased substring test, sender test, then time test (strictly after the start, or any time when the start is zero) |
| `Email.HitsCount` | components/platform/email/email.go:116-122 | for one message, its UID is appended once per tag occurring in the lower-cased subject when the sender and time tests pass, and never otherwise |
| `Email.FilteredCount` | components/platform/email/email.go:114-124 | in the whole output a message's UID occurs once per matching tag (so duplicates occur), or not at all when its sender is blacklisted or it is too old |
| `Email.FilteredAbsent` | components/platform/email/email.go:114-124 | a UID no message carries never occurs in the output |
| `Email.HitsMembers` | components/platform/email/email.go:116-122 | a UID is among one message's hits iff it is that message's and some tag selects it |
| `Email.FilteredMembers` | components/platform/email/email.go:115-123 | a UID is in the output iff some input message with that UID passes the subject, sender and time tests for some tag |
| `Email.EmptyTagSelectsAll` | components/platform/email/email.go:117-119 | an empty tag occurs in every subject, so it selects every message that passes the sender and time tests |
| `Email.FilterEmailsByTag` | components/platform/email/email.go:50-68 | equals `MatchingEmails`: the filterTags error, "no emails found with tags" for an empty UID list, or the messages refetched by the selected UIDs |
| `Email.RefetchMembers` | components/platform/email/email.go:63 | a message is refetched iff it was fetched and its UID was selected |
| `Email.MatchingEmailsOutcome` | components/platform/email/email.go:53-67 | "no tags provided" iff there are no tags; "no emails found with tags" iff no message passes the tests for any tag; on success a non-empty list of fetched messages each passing the tests for some tag |
| `Email.AggregateEmailBody` | components/platform/email/email.go:70-76 | the body is every message's text followed by ". ", in order (`Corpus`) |
| `Email.CorpusLength` | components/platform/email/email.go:70-76 | the body's length is the texts' total length plus two per message, so it is empty iff there are no messages |
| `Pipeline.InitializedMarks` | components/user/pipeline.go:37-41 | after initialisation each tag maps to its stored mark, or to 1 when the mark is missing or 0; other keys keep their values |
| `Pipeline.InitWatermark` | components/user/pipeline.go:37-41 | the loop over the tags builds exactly the initialised map `Initialized` |
| `Pipeline.Lowest` | components/user/pipeline.go:43-51 | the lowest mark is at most every tag's mark and is some tag's mark |
| `Pipeline.LowestMark` | components/user/pipeline.go:43-51 | the loop, which starts from the first tag and skips the walk for a single tag, computes `Lowest` |
| `Pipeline.AdvanceWatermark` | components/user/pipeline.go:71-75 | the new map holds exactly the configured tags, each mapped to the last fetched UID |
| `Pipeline.WriteAndFilter` | components/user/pipeline.go:71-94 | the watermark is stored first, then the filter error, "no summary" or the body is returned, as `AfterFetch` states |
| `Pipeline.GenerateSummary` | components/user/pipeline.go:14-94 | the imperative pipeline returns what `Pipeline` specifies for every user record and session |
| `Pipeline.FailuresBeforeWrite` | components/user/pipeline.go:16-60 | "no tags" comes first, then the login failure, then "no emails found" for an empty mailbox, and none of them stores a watermark |
| `Pipeline.ConnectedRun` | components/user/pipeline.go:53-69 | with messages in the mailbox the fetch starts at the lowest mark clamped to the highest UID, the fetched list ends with the newest message, and the run continues with it |
| `Pipeline.WatermarkWrittenBeforeFilter` | components/user/pipeline.go:71-87 | every run that fetched messages stores the highest UID for exactly the configured tags, whatever the filter decides; stale tags are dropped |
| `Pipeline.AfterFetchWritten` | components/user/pipeline.go:77-87 | the watermark is written before the filter runs, so a filter failure still stores it |
| `Pipeline.FetchedRange` | components/user/pipeline.go:43-69 | a run fetches exactly the messages at or above the lowest initialised mark, plus the newest one |
| `Pipeline.WatermarkCanDecrease` | components/user/pipeline.go:62-82 | a tag whose stored mark is above the highest UID gets a smaller mark written back |
| `Pipeline.NoSummaryUnreachable` | components/user/pipeline.go:84-94 | no run ends with "no summary", given that the refetch returns the fetched messages it selects |
| `Pipeline.UniformMarkLowest` | components/user/pipeline.go:37-51 | after a run has stored one positive mark for every tag, the next run's lowest mark is that mark |
| `Pipeline.FetchFromNewest` | components/platform/email/email.go:36-47 | asking for `top:*`, with `top` the highest UID, fetches the newest message alone |
| `Pipeline.SelectedAlone` | components/platform/email/email.go:50-67 | a single message that some tag selects is returned by the filter on its own |
| `Pipeline.CorpusOfOne` | components/platform/email/email.go:70-76 | one message aggregates to its text followed by ". " |
| `Pipeline.RerunRepeatsNewest` | components/user/pipeline.go:37-94 | a second run over the same mailbox, with the watermark the first stored, summarises the newest message again when a tag selects it |
| `Scheduler.Atoi` | components/scheduler/scheduler.go:153-156 | the parsed minutes lie in the 64-bit range and equal the decimal value of a plain digit string in range; the empty string gives 0 |
| `Scheduler.AtoiOverflowFirst` | components/scheduler/scheduler.go:153-156 | digits above the unsigned 64-bit range followed by junk parse as the largest int64, because the range error is met before the syntax error |
| `Scheduler.AtoiNegativeOverflowFirst` | components/scheduler/scheduler.go:153-156 | the same with a leading '-' gives the smallest int64 |
| `Scheduler.TickerPeriod` | components/scheduler/scheduler.go:153-158 | the ticker period is a 64-bit duration, and zero whenever the interval parses to 0 (including every unparseable one) |
| `Scheduler.TickerWindow` | components/scheduler/scheduler.go:153-158 | `StartsTicker` holds for every parsed interval from 1 to 153722867 and for none from -153722867 to 0 |
| `Scheduler.Wrap64` | components/scheduler/scheduler.go:158 | the product of minutes and `time.Minute` wraps into the 64-bit range and is unchanged when it already fits |
| `Scheduler.MinutesPeriod` | components/scheduler/scheduler.go:153-158 | a plain number of minutes from 1 to 153722867 gives a ticker of exactly that many minutes |
| `Scheduler.InactivePanics` | components/scheduler/scheduler.go:153-158 | scheduling "0" or "" makes `time.NewTicker` panic |
| `Scheduler.LongestPeriod` | components/scheduler/scheduler.go:153-158 | "153722867" starts a ticker; "153722868" wraps to a negative period and panics |
| `Scheduler.Removed` | components/scheduler/scheduler.go:141-150 | `remove(s, i)` with `i` inside the slice has one element fewer, the others in their order |
| `Scheduler.Remove` | components/scheduler/scheduler.go:141-150 | on the backing array: an index past the length changes nothing; otherwise the prefix becomes `Removed` and the cells from the new length on keep their old contents |
| `Scheduler.RemoveMember` | components/scheduler/scheduler.go:83-87 | the range loop over the shared backing array leaves `Scan(group, id, 0)` |
| `Scheduler.Scan` | components/scheduler/scheduler.go:83-87 | the scanned group is no longer than the old one and holds only old members |
| `Scheduler.ScanKeepsOthers` | components/scheduler/scheduler.go:83-87 | the range loop removes only copies of the id: every other member stays, in order |
| `Scheduler.ScanAbsent` | components/scheduler/scheduler.go:83-87 | a group without the id is left unchanged |
| `Scheduler.ScanUnique` | components/scheduler/scheduler.go:83-87 | an id that occurs once is removed exactly |
| `Scheduler.ScanSkipsNeighbour` | components/scheduler/scheduler.go:83-87 | of two adjacent copies only the first is removed |
| `Scheduler.Persist` | components/scheduler/scheduler.go:66-69 | a gorm update stores the interval for the user, except that the empty interval writes nothing; every other user keeps its interval |
| `Scheduler.ScheduleNewTaskStep` | components/scheduler/scheduler.go:53-74 | an unknown user or one with an active interval fails with nothing changed; a held mutex blocks; otherwise the id is appended to the interval's group, other groups are unchanged and the interval is stored; a new key runs `Schedule`, and when its ticker panics the outcome is `Panicked` with the mutex left held; the call never crashes the process |
| `Scheduler.Prune` | components/scheduler/scheduler.go:92-95 | an emptied group's key is dropped and `cancel()` fires; otherwise the group is stored; other keys are unchanged |
| `Scheduler.DeleteTaskStep` | components/scheduler/scheduler.go:76-101 | an absent interval fails with nothing changed but the mutex left held; otherwise the group loses only copies of the id, an emptied group is dropped with `cancel()`, and "0" is stored even for a non-member |
| `Scheduler.DeleteTaskForUserStep` | components/scheduler/scheduler.go:103-125 | succeeds for every known user: stores "0", scans the group at the stored interval, and cancels every worker when that group is absent or emptied |
| `Scheduler.UpdateTaskStep` | components/scheduler/scheduler.go:127-139 | an unknown user crashes the process on the unlock of the free mutex (a held one is released with the error); for a known user a held mutex blocks the call; an absent old interval fails with the mutex released and nothing changed; otherwise it is DeleteTask followed by ScheduleNewTask, which cannot fail, and a ticker panic there leaves the mutex held with no unlock after it |
| `Scheduler.ActiveIntervals` | components/scheduler/scheduler.go:44-49 | lists exactly the stored intervals of the users read whose interval is neither "0" nor "" |
| `Scheduler.ScheduleUser` | components/scheduler/scheduler.go:44-49 | a user with an active interval becomes the only member of that group and `Schedule` runs for it, ending the process when its ticker panics; any other user changes nothing; the store, the cancellation and the mutex are untouched |
| `Scheduler.Bootstrap` | components/scheduler/scheduler.go:44-49 | the loop over the users read either completes or ends the process, never anything else |
| `Scheduler.ScheduleTasksStep` | components/scheduler/scheduler.go:40-51 | ScheduleTasks blocks iff the mutex is held, and otherwise completes or ends the process, leaving the store and the cancellation as they were |
| `Scheduler.BootstrapFrame` | components/scheduler/scheduler.go:40-51 | the bootstrap loop changes no stored interval, never cancels and leaves the mutex as it was |
| `Scheduler.BootstrapConsistent` | components/scheduler/scheduler.go:40-51 | the bootstrap keeps a consistent registry consistent: each user stays in the group of its stored interval, once |
| `Scheduler.PanicBlocksLaterCalls` | components/scheduler/scheduler.go:63-72 | after a recovered ticker panic in ScheduleNewTask the mutex is held, so DeleteTask, DeleteTaskforUser, UpdateTask, ScheduleNewTask for an inactive user and ScheduleTasks all block |
| `Scheduler.BootstrapDone` | components/scheduler/scheduler.go:44-49 | ScheduleTasks completes iff no qualifying user's interval makes the ticker panic |
| `Scheduler.BootstrapStarted` | components/scheduler/scheduler.go:44-49 | `Schedule` is called once per qualifying user, in the order read |
| `Scheduler.BootstrapStops` | components/scheduler/scheduler.go:44-49 | after a panic no later user is read |
| `Scheduler.BootstrapKeys` | components/scheduler/scheduler.go:44-49 | the keys become the old keys plus every qualifying interval, and no group is empty |
| `Scheduler.BootstrapLastWins` | components/scheduler/scheduler.go:46 | each qualifying interval's group is the one-element list of the last user read with it |
| `Scheduler.BootstrapUntouched` | components/scheduler/scheduler.go:44-49 | keys no user read names keep their groups |
| `Scheduler.ScheduleNewTaskConsistent` | components/scheduler/scheduler.go:59-71 | scheduling a user at an active interval keeps every member's stored interval equal to its group's key, with no id twice in a group |
| `Scheduler.PrunedGroup` | components/scheduler/scheduler.go:83-87 | scanning a duplicate-free group leaves members of the old group, without the id and still duplicate-free |
| `Scheduler.PruneConsistent` | components/scheduler/scheduler.go:82-98 | removing a user from the group of its stored interval and storing "0" keeps the registry consistent |
| `Scheduler.DeleteTaskConsistent` | components/scheduler/scheduler.go:76-101 | DeleteTask keeps the registry consistent when the caller passes the user's stored interval |
| `Scheduler.DeleteTaskForUserConsistent` | components/scheduler/scheduler.go:103-125 | DeleteTaskforUser keeps the registry consistent |
| `Scheduler.UpdateTaskConsistent` | components/scheduler/scheduler.go:127-139 | UpdateTask with the stored old interval and an active new one keeps the registry consistent, so each id stays in at most one group |
| `Scheduler.ConsistentOneGroup` | components/scheduler/scheduler.go:17 | a consistent registry holds each id in at most one group |
| `Scheduler.MismatchedDeleteSharesId` | components/scheduler/scheduler.go:53-101 | DeleteTask with another existing interval, then ScheduleNewTask, puts one user in two groups |
| `Scheduler.CancelIsPermanent` | components/scheduler/scheduler.go:26 | no operation takes back a fired `cancel()` |
| `Scheduler.DeleteTaskRemovesMember` | components/scheduler/scheduler.go:82-95 | a member listed once is removed exactly, and the key is dropped with `cancel()` iff it was the only member |
| `Scheduler.DeleteWithoutGroupCancels` | components/scheduler/scheduler.go:117-120 | DeleteTaskforUser for a user whose stored interval has no group still cancels every worker and stores "0" |
| `Scheduler.UpdateTaskNeverFailsLate` | components/scheduler/scheduler.go:127-139 | after a successful DeleteTask the rescheduling stores the new interval (or "0" for "") and completes unless a new key's ticker panics |
| `Scheduler.Notify` | components/scheduler/scheduler.go:171-191 | a member gets the summary on success, "No new emails to summarize." iff the filter found nothing for its tags, and an error mail otherwise |
| `Scheduler.NoticesPerMember` | components/scheduler/scheduler.go:165-193 | a tick mails every member of the group once, in group order |
| `Scheduler.NothingNewAnswered` | components/scheduler/scheduler.go:181 | a run that fails with "no emails found with tags" for the user's tags is answered with the informational mail |
| `Scheduler.TaskManager.constructor` | components/scheduler/scheduler.go:24 | the registry starts empty, unlocked, not cancelled and consistent, over the given user store |
| `Scheduler.TaskManager.Schedule` | components/scheduler/scheduler.go:152-158 | a worker is recorded iff the ticker period is positive; nothing else changes |
| `Scheduler.TaskManager.ScheduleTasks` | components/scheduler/scheduler.go:40-51 | the new state and outcome are those of `ScheduleTasksStep`, and no group is empty |
| `Scheduler.TaskManager.ScheduleNewTask` | components/scheduler/scheduler.go:53-74 | the new state and outcome are those of `ScheduleNewTaskStep`, and no group is empty; a ticker panic returns `Panicked` with the mutex still held |
| `Scheduler.TaskManager.DeleteTask` | components/scheduler/scheduler.go:76-101 | the new state and outcome are those of `DeleteTaskStep`, and no group is empty |
| `Scheduler.TaskManager.PruneGroup` | components/scheduler/scheduler.go:92-95 | the new state is `Prune` of the old one |
| `Scheduler.TaskManager.DeleteTaskForUser` | components/scheduler/scheduler.go:103-125 | the new state and outcome are those of `DeleteTaskForUserStep`, and no group is empty |
| `Scheduler.TaskManager.Unlock` | components/scheduler/scheduler.go:130 | the new state and outcome are those of `UnlockStep`: a held mutex is released and the outcome kept; a free one ends the process |
| `Scheduler.TaskManager.UpdateTask` | components/scheduler/scheduler.go:127-139 | the new state and outcome are those of `UpdateTaskStep`, and no group is empty; a ticker panic in the rescheduling returns `Panicked` with the mutex still held |
| `Scheduler.TaskManager.Tick` | components/scheduler/scheduler.go:159-193 | a cancelled worker mails nothing; with the mutex held the tick blocks; otherwise it mails `Notices` for the interval's current group |

## Left out

- Goroutines, `time.NewTicker` timing, signal handling (`Cleanup`) and any interleaving of calls are left out. Calls and ticks run one after another. `started` records the workers, and a tick is one pass of a worker's loop body.
- `TaskManager.Tick`: when the context is cancelled and a tick is pending at once, Go's `select` may still run that one tick. The model treats a cancelled worker as gone.
- `TaskManager.Tick`: a failed user read inside the tick dereferences a nil user in the source. The model takes each member's pipeline result as a parameter `run`, and leaves out the summariser, the word cloud, mail delivery and removing the image file.
- The user store is a map from id to interval. The model treats every `Update` call as a successful write, with gorm's skipping of zero-valued fields (`Persist`). Reading the user with the empty id, which gorm turns into an unfiltered query, is not modelled. Database errors are not modelled.
- `Scheduler.Remove`: the `nil` case of `remove` is not modelled. Groups in the registry are never `nil`, and a Dafny array is never null.
- Password decoding, decryption, IMAP login and folder selection are one `Session` value. An IMAP error in the highest-UID query, the fetch or the refetch is not modelled. The refetch of `FilterEmailsByTag` reads the same messages that the fetch returned.
- The JSON encoding of `LastUID` is not modelled. An undecodable stored value is not modelled. Stored marks are natural numbers, so a negative mark in the JSON is not modelled.
- Go map iteration order is not modelled. It decides the order of the messages (filterTags, AggregateEmailBody) and the sender that `getSender` picks. The model takes ascending UID order and the first address.
- `strings.ToLower` is modelled on ASCII letters only. `time.Time` is an integer, with 0 as the zero time.
- `Pipeline.GenerateSummary`: the result on success is the aggregated body. `wordcloud.Summarize`, keyword extraction and image rendering are not modelled.
- The range `n:*` passed to `GetUIDs` is taken to be read as UIDs, not as message sequence numbers. Which command the IMAP client library sends is not part of this model.
- `Pipeline.NoSummaryUnreachable`: holds only under the assumption above that the refetch returns every fetched message it selects. A server that returns nothing for the refetch would reach "no summary".
- `Scheduler.StartsTicker`: its window is stated in the lemma `TickerWindow` rather than on the predicate, and nothing is stated for intervals above 153722867 minutes, where the 64-bit product wraps.
- Registry errors are values. Their message texts are not modelled, except where the tick compares them.
