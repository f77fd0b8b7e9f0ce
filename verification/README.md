# A verified model of the course assistant's core

A Dafny 4.11 model of the parts of the service that carry promises over whole runs: the
write journal and the two protocols on top of it, the request broker, the answer bank, the
page-traffic counters, the homework worker pool, the rate limiter, and the scheduling of
jobs. `dafny verify dfyconfig.toml` checks everything.

Code that changes things step by step is modelled twice. Transition systems (a `State` or
`System`, an `Event`, a `Step`) describe every interleaving of runners, crashes and outside
events, and the theorems about runs are stated over them. Beside each of them a class or a
method is written as the source writes it, with loops and fields updated in place, and its
contract says that what it leaves behind is exactly what the transition system, or a
specification function, gives.

## What is modelled

- `Platform.dfy`, `Journal.dfy`, `Submission.dfy`, `Submitter.dfy`: the submission of an
  answer. Every request is recorded as pending before it is sent, every save is a
  compare-and-set on state, attempt and retries, and an uncertain outcome is read back
  before anything is sent again. Runners interleave freely and may stop between any two
  steps.
- `Retry.dfy`: which outcomes one call through the broker follows with a resend.
- `Effects.dfy`, `Effector.dfy`: discussion posts and enrollments, sent at most once, and
  video and article progress, replayed after a look at the platform's own progress.
- `Cooldowns.dfy`, `Broker.dfy`, `BrokerPass.dfy`, `BrokerLoop.dfy`: the queue, the global and
  per-user caps, the rule that lets a normal request pass after two submissions, and the two
  deadline maps.
- `Traffic.dfy`, `TrafficShape.dfy`, `PageTraffic.dfy`, `PageHistory.dfy`, `Snapshots.dfy`: page
  views in rings of 24 hours and 30 days, compared with an unbounded history of views, across
  files, failed writes and restarts; which runs lose a view, and which snapshots are true.
- `Ordering.dfy`, `Json.dfy`, `JsonLaws.dfy`, `NumberToken.dfy`, `RawText.dfy`, `Canonical.dfy`,
  `Fingerprint.dfy`, `Identity.dfy`: JSON texts (RFC 8259), their canonical and legacy forms, and
  what a question's fingerprint says about the question.
- `Answers.dfy`, `AnswerMeanings.dfy`, `Extraction.dfy`, `AnswerItems.dfy`, `Bank.dfy`,
  `BankRows.dfy`, `BankService.dfy`: taking answers out of what the platform shows, storing and
  reading them, the conflict rule, and the batch form of observation.
- `Homework.dfy`, `HomeworkReview.dfy`, `HomeworkResult.dfy`, `HomeworkPool.dfy`: the JavaScript
  worker pool with sleepers, and its final look at every exercise.
- `IndexPool.dfy`: the bounded pool in which the Go runners work through their units.
- `Limiter.dfy`: the fixed-window limiter with eviction and a cap.
- `Jobs.dfy`, `JobChange.dfy`, `Scheduler.dfy`: module generations and the life of a job;
  admission limits and the rotation of owners.

## Assumptions

- The platform is honest about refusals. It does not take a submission that never connected,
  one that the client ends because the account is missing or access is denied, or one that it
  answers with status 400, 401, 403, 404, 422 or 429, or below 500 with a body that says
  `"success": false`. It does not take another write that it answers with 401, 403 or 429, or
  with such a body at any status. It takes a request only while the call is under way, and a
  later read counts what it has taken. Progress reports of a unit are truthful; the user may
  finish a unit without the service at any time.
- At most one acceptance further needs one runner per key at a time (the single-flight
  group) and at least one re-read; `Submissions.AcceptanceBoundIsExact` shows that these two
  conditions are exactly what is needed.
- A digest is an injective function. The shortest decimal form of a number is a function on
  number tokens whose results are number tokens and their own form. Both are parameters.
- Clocks do not go back within a run of the broker or the limiter. Page-view times are not
  before the epoch, and may come in any order.
- A transaction is one step. Its commit may fail.

## What the model showed

- The row of a journal never returns to an earlier version under any interleaving, so no
  attempt is claimed twice even without single flight; but two runners that both read
  "unanswered" can both be accepted (`Submissions.TwoRunnersCounterexample`).
- A view is lost for good exactly if a restart loads the file after a view whose write failed
  and before the next write that succeeds (`PageHistories.NothingIsLost`).
- In a run that loses nothing, a snapshot is true if and only if no view in its range was
  older, at a restart after it, than the ring's window at that restart, unless the pruning of
  that restart was undone because another restart loaded the same file before the next write
  (`Snapshots.SnapshotsAreTrue`, `Snapshots.PruningIsUndone`). So the clock may go back behind a
  restart as long as the ring's window at the restart still reaches back to the first period
  of the snapshot, and exactly as long (`Snapshots.HowFarTheClockMayGoBack`); beyond that a view
  disappears (`Snapshots.ClockGoesBack`).
- Two questions with one fingerprint may have different numbers of blanks: an empty `Blanks`
  list hides a `blanks` list from the fingerprint but not from the count
  (`Identities.HiddenBlanks`, and exactly when in `Identities.BlanksAgree`). A lookup then
  finds the stored answer only if it fits the question that is asked about.
- The homework pool counts every question as processed, in all its runs, if and only if of
  any question that the platform lists more than once every copy was answered before
  (`HomeworkReviews.EveryQuestionIsProcessed`). Otherwise some run returns with a copy that is
  neither submitted nor reported (`HomeworkReviews.ListedTwice`); in any run exactly the
  overlooked copies are missing (`HomeworkReviews.OverlookedAreMissing`).
- A module that is done does not stay done: pausing or stopping overwrites it
  (`Jobs.DoneEnds`). A finish that reports the module as running would not end its
  generation (`Jobs.FinishedAsRunning`); no run reports that.
- Without a positive window the limiter limits nothing (`Limiters.NoWindowNoLimit`); its rate is
  bounded in all runs if and only if the window is positive or the limit is not
  (`Limiters.RateBoundIsExact`).

## Model

| member | source | states |
|---|---|---|
| `Platform.FaultsAre` | internal/platform/http.go:148-166 | Which error a response is read as, by its status before its body; none exactly for a 200 whose body says neither failure nor an error code. |
| `Submissions.AtMostOneAcceptance` | internal/operations/submissions.go:83-262 | Over every run with crashes anywhere, single-flighted runners and at least one re-read, the platform takes at most one submission of a question; once it has, the row never reads as unsent, refused or to be retried. |
| `Submissions.AcceptanceBoundIsExact` | internal/operations/submissions.go:31-120 | That bound holds of all runs if and only if runners are single-flighted (or there is one) and a reconciliation reads at least once. |
| `Submissions.NoReadsCounterexample` | internal/operations/submissions.go:83-120 | With no re-reads there is a run in which the platform takes two submissions. |
| `Submissions.TwoRunnersCounterexample` | internal/operations/submissions.go:31-43 | With two runners at once there is a run in which the platform takes two submissions. |
| `Submissions.SafeStep` | internal/operations/submissions.go:137-262 | Every step keeps the invariant: where a runner may send again, nothing has been taken. |
| `Submissions.VersionNeverReturns` | internal/operations/journal.go:53-127 | Under any interleaving of any runners, a journal version (attempt, retries, state) that was left is never seen again. |
| `Submissions.ClaimsAreUnique` | internal/operations/journal.go:53-85 | The k-th request sent carries attempt k, so no two runners claim the same attempt. |
| `Submissions.RetryBudget` | internal/operations/submissions.go:121-170 | Requests sent, less explicit rejections, are at most retries + 1, and that at most 3, over all runners and restarts. |
| `Submissions.JournalStep` | internal/operations/journal.go:53-127 | Every step either leaves the row alone or moves its version forward, and keeps the log and the budget. |
| `Submissions.RepliesAreSaved` | internal/operations/submissions.go:175-260 | A call is saved as posted exactly if the reply is a 200 with data and without failure or error code, as not sent exactly if it never connected, as rejected exactly if the platform or the client states that it took nothing, and as unknown otherwise. |
| `Submissions.RepliesLeadOn` | internal/operations/submissions.go:175-260 | The answer is sent again at once exactly after a throttled reply below 500, and retried without a look exactly if it was not sent, the failure may pass and the call is not cancelled; the platform is read again exactly if the request may have been taken. |
| `Submissions.CountersAre` | internal/operations/submissions.go:164-172 | What the numbers in the bounds count, step by step: requests the platform has taken, and saves as pending that went through. |
| `Journals.Journal.Load` | internal/operations/journal.go:23-52 | Refuses an account that is not bound and a blocked course; otherwise creates the row if it is missing and returns a snapshot of it. |
| `Journals.Journal.Save` | internal/operations/journal.go:53-85 | A compare-and-set on state, attempt and retries: it writes row and attempt log and updates the caller's copy, or changes nothing. |
| `Journals.WrittenIs` | internal/operations/journal.go:53-85 | What a save writes: state, retries and retryability as given, one more attempt exactly as pending, and the state in the log at the place of the attempt and nowhere else; it compares state, attempt and retries. |
| `Journals.Journal.PreserveLegacy` | internal/operations/journal.go:86-127 | Merges earlier records into a new row: last accepted state, largest retries (at most two), retryable only if all were. |
| `Journals.LastLegacyDecides` | internal/operations/journal.go:112-125 | The last earlier record that is posted or confirmed gives the state of the new row; without one it is unknown. |
| `Submitters.Submitter.Submit` | internal/operations/submissions.go:71-262 | Whatever the outside world does, the loop leaves exactly the state that the transition system reaches; it answers if and only if a good reply or a re-read has shown an answer in the course of the call, the next save has gone through and the bank has saved the answer, and reports a cancellation if and only if it has saved a request that failed under one; with an answer the row is posted or confirmed, and the platform takes at most one request. |
| `Submitters.ComesExactly` | internal/operations/submissions.go:83-260 | A call comes to an answer exactly if somewhere in it a 200 reply with data, or a re-read that counts an answer, is followed by a save on the row as it was read, and to a cancellation exactly if a request that failed while the call was being cancelled is. |
| `Submitters.Submitter.Prepare` | internal/operations/submissions.go:71-157 | In step with the transition system, ends with the runner about to claim, or done; with an answer exactly if a re-read has shown one, the save has gone through and the bank has saved it. |
| `Submitters.Submitter.Reconcile` | internal/operations/submissions.go:83-120 | Reports an answer exactly if a re-read has shown one that the journal and the bank have saved, and absence only after every read has counted none, with the record unchanged; in step with the transition system. |
| `Submitters.Submitter.Retry` | internal/operations/submissions.go:121-136 | In step with the transition system, either reserves one of the two retries and is about to claim, or is done. |
| `Submitters.Submitter.Attempt` | internal/operations/submissions.go:164-262 | One claim and one request, in step with the transition system: another round that has consumed part of the outside world, or a result, which is the answer exactly if it has been obtained and saved by the bank. |
| `Submitters.Submitter.AfterFailure` | internal/operations/submissions.go:175-215 | After a failed request, in step with the transition system, another round or the end; with the answer exactly if a re-read has shown it and it has been saved. |
| `Submitters.Submitter.AfterResponse` | internal/operations/submissions.go:216-260 | After a response, in step with the transition system, another round or the end; with the answer exactly if the reply, or else a re-read, has shown it and it has been saved. |
| `Retry.Call` | internal/platform/retry.go:10-43 | The same request is sent again exactly after a 403; for a read also after a throttled reply, a status from 500 on and any passing failure of the connection, and for a write other than a submission after a passing failure before it connected; the call ends with the first other outcome, or is cancelled; backoffs and waits grow as stated. |
| `Retry.OneCallTakesAtMostOnce` | internal/platform/retry.go:10-43 | Of all the sends of one such call the platform takes at most one, and only the last. |
| `Effects.SentAtMostOnce` | internal/operations/effects.go:26-122 | A discussion post or enrollment: over all runners, restarts and crashes at most one request is not ended by an explicit rejection, and at most one is taken. |
| `Effects.RedundantWritesArePaidFor` | internal/operations/effects.go:41-98 | Video and article: writes taken after the unit was complete outnumber the checks in which the platform left its completion field out by at most one, and by none unless the user has finished the unit without the service. |
| `Effects.RedundantBoundIsExact` | internal/operations/effects.go:26-98 | That bound holds of all runs if and only if one runner works on a key at a time. |
| `Effects.TwoReplaysCounterexample` | internal/operations/effects.go:26-98 | Two runners at once can both write when the unit is already complete. |
| `Effects.OutcomesAreSaved` | internal/operations/effects.go:73-121 | A write is saved as posted exactly after a 200 without failure or error code, and as rejected exactly if the platform declined it; it is made again exactly after a throttled reply or, if it may be repeated, a passing failure. |
| `Effects.CountersAre` | internal/operations/effects.go:45-77 | What the numbers in the bounds count, step by step: requests the platform has taken, those of them after the unit was complete, checks without the field, and completion elsewhere. |
| `Effectors.Effector.Effect` | internal/operations/effects.go:26-122 | The loop leaves exactly the state of the transition system; it returns that the write was accepted, or that the unit is finished, if and only if a good reply, or a check of the progress, has said so and the next save has gone through, and the recorded result if and only if the row of a write that is not repeated is posted or confirmed; such a write is taken at most once. |
| `Effectors.ReturnsExactly` | internal/operations/effects.go:41-121 | A call returns accepted, or finished, exactly if somewhere in it a good reply, or a check that finds the unit complete, is followed by a save on the row as it was read. |
| `Effectors.Effector.Check` | internal/operations/effects.go:45-68 | Ends a call as finished exactly if the platform counts the unit as complete and the row has been confirmed; otherwise goes on to claim, or fails. |
| `Effectors.Effector.Settled` | internal/operations/effects.go:73-121 | In step with the transition system, goes round again or ends; accepted exactly if the reply is good and the row has been saved as posted. |
| `Cooldowns.PurgeIsUnobservable` | internal/platform/cooldowns.go:33-57 | Deleting expired deadlines changes nothing that is observed now or later, whatever is recorded afterwards. |
| `Cooldowns.AlikeLive` | internal/platform/cooldowns.go:33-57 | Two tables hold users back alike from now on exactly if their live deadlines agree. |
| `Cooldowns.HeldExactly` | internal/platform/cooldowns.go:33-93 | After any run of recordings and look-ups a user is held back at a time exactly if one of the deadlines recorded for that user is later: never shorter, and never longer. |
| `Cooldowns.BackoffDoubles` | internal/platform/cooldowns.go:85-93 | The wait of a repeated denial doubles with every retry, up to 32 times the minimum and to half an hour. |
| `Cooldowns.Table.State` | internal/platform/cooldowns.go:33-57 | Tells whether and until when a request is held back, and deletes what has expired. |
| `Cooldowns.Table.Record` | internal/platform/cooldowns.go:59-78 | A denial or a throttle sets the right deadline, never an earlier one, and a denial at least the minimum. |
| `Cooldowns.Table.ExtendAccess` | internal/platform/cooldowns.go:85-93 | A repeated denial extends the account's deadline by a doubling, capped wait, and never shortens it. |
| `Brokers.Conservation` | internal/platform/broker.go:69-165 | In every run a request that arrived is in exactly one place: queued, in flight, or answered once; at most 64 in flight, at most 3 submissions per user. |
| `Brokers.BoundedBypass` | internal/platform/broker.go:125-163 | A request that stays eligible with k requests of its class ahead is started after at most 3k + 2 others if it is a normal request, and at most k + k/2 (rounded down) + 1 if it is a submission; and every free pass starts one. |
| `Brokers.StepKeepsSound` | internal/platform/broker.go:107-165 | Every event of the loop keeps the invariant behind the conservation law. |
| `Brokers.PassIs` | internal/platform/broker.go:125-163 | A pass with a free slot starts the chosen request, which is eligible, or starts none, and then nothing that is queued is eligible. |
| `BrokerPasses.PassStarts` | internal/platform/broker.go:125-163 | With less than 64 requests in flight a pass starts a request whenever one may be started: the first of its class in the queue, a submission unless two in a row have been or none may be. Those whose context has ended are answered, and all others keep their order. |
| `BrokerPasses.FirstReady` | internal/platform/broker.go:126-146 | What the scan finds in a class is the first request in the queue that has not gone, has no deadline to wait for and, for a submission, less than three others of its user in flight. |
| `BrokerPasses.FinishFrees` | internal/platform/cooldowns.go:59-78 | A result frees its place and answers its caller; a 403 holds the user back until the later of hint and minimum, a throttled submission the user's submissions until the hint, and nothing else holds anybody back. |
| `Brokers.DenialIsRespected` | internal/platform/cooldowns.go:59-77 | After a 403 no request of the user starts before the minimum wait and the server's hint are over. |
| `Brokers.ThrottleIsRespected` | internal/platform/cooldowns.go:59-77 | After a throttled submission no submission of the user starts before the server's hint. |
| `Brokers.ExtensionIsRespected` | internal/platform/cooldowns.go:85-93 | After an extension nothing of the user starts before the doubled wait. |
| `BrokerLoops.Loop.Scan` | internal/platform/broker.go:126-146 | One scan of the queue, deleting as it goes: the two indices it returns are the first eligible normal request and submission of what is left. |
| `BrokerLoops.Loop.Turn` | internal/platform/broker.go:125-163 | One turn of the inner loop is one pass of the transition system; it says whether to go on. |
| `BrokerLoops.Loop.Launch` | internal/platform/broker.go:154-163 | Removes the chosen request from the queue and updates counters and streak. |
| `BrokerLoops.Loop.Dispatch` | internal/platform/broker.go:125-164 | The loop stops only at the cap or when nothing that is queued may go. |
| `BrokerLoops.Loop.Receive` | internal/platform/broker.go:114-115 | An arrival, as in the transition system. |
| `BrokerLoops.Loop.Collect` | internal/platform/broker.go:116-122 | A result, as in the transition system: counters, cooldowns, one answer. |
| `BrokerLoops.Loop.Close` | internal/platform/broker.go:109-113 | Every queued caller gets one answer, and nobody else does. |
| `Traffic.WrapsAround` | internal/httpapi/page_traffic.go:50 | The double remainder is the non-negative one, for negative values too. |
| `Traffic.CountKeeps` | internal/httpapi/page_traffic.go:58-85 | Counting one view, in order or late, keeps a ring equal to the true counts in its window. |
| `Traffic.SaveThenRestore` | internal/httpapi/page_traffic_store.go:80-127 | What is saved is accepted exactly if the tracker started after the first millisecond and no count exceeds 2^53; the restored tracker gives the same snapshots for all times and ranges. |
| `Traffic.RestoredIsWellFormed` | internal/httpapi/page_traffic_store.go:80-108 | Any accepted file gives rings that satisfy the invariant and survive another save. |
| `TrafficShapes.SnapshotIs` | internal/httpapi/page_traffic.go:116-185 | A snapshot has 24 hours, or 7 or 30 days, without a gap, that end with the present or with the latest view if that is later; each point shows the ring's count, and none before the tracker started; the total is their sum. |
| `TrafficShapes.RestoredIf` | internal/httpapi/page_traffic_store.go:80-105 | A file is accepted exactly if its version is 1, its times are positive and ordered, its lists fit the rings, and each bucket begins with a unit of the window, holds 1 to 2^53 views and shares its slot with no other. |
| `TrafficShapes.RestoredIs` | internal/httpapi/page_traffic_store.go:80-108 | The tracker restored from a file has its times, and in every slot the bucket that belongs there or nothing. |
| `TrafficShapes.SavedIs` | internal/httpapi/page_traffic_store.go:117-127 | A file holds the times in milliseconds and exactly the slots that have views. |
| `Snapshots.SnapshotsAreTrue` | internal/httpapi/page_traffic.go:58-185 | In a run that loses nothing, with views in any order and any number of restarts, every point and the total of a snapshot equal the true counts if and only if every view in its range was in the ring's window at every restart after it whose pruning lasts. |
| `Snapshots.HowFarTheClockMayGoBack` | internal/httpapi/page_traffic_store.go:44-78 | For a latest restart, a captured time and a range: the snapshots of all runs that lose nothing are true if and only if the ring's window at that restart reaches back to the first period of the snapshot. |
| `Snapshots.ClockGoesBack` | internal/httpapi/page_traffic_store.go:72-77 | In a run of one view and one restart that prunes its period, every snapshot that captures an earlier time and should show the view does not. |
| `PageHistories.NothingIsLost` | internal/httpapi/page_traffic_store.go:44-78 | The tracker stands for every view counted since the first start if and only if every restart that loads the file comes after a successful write no earlier than the last view; a lost view never comes back. |
| `PageHistories.RunShows` | internal/httpapi/page_traffic.go:58-112 | In every reachable state of a run that loses nothing, tracker and file show at most the true count of a period in their window, and the true count exactly if no restart hides a view of it. |
| `PageHistories.TraceIsKnown` | internal/httpapi/page_traffic.go:58-61 | Which views are counted and which restarts load their file is known from the events alone, up to 2^53 of them. |
| `PageHistories.PruningHides` | internal/httpapi/page_traffic.go:99-112 | After pruning a period is shown as before if it is in the window, and as empty otherwise. |
| `PageTraffics.RunIsFaithful` | internal/httpapi/page_traffic.go:58-112 | In every reachable state, failed writes included, each ring and the file agree with the views they stand for. |
| `PageTraffics.HorizonOfRun` | internal/httpapi/page_traffic_store.go:44-78 | Only a restart prunes with a time beyond the latest view. |
| `PageTraffics.AnyFileIsSound` | internal/httpapi/page_traffic_store.go:80-108 | The tracker loaded from any accepted file agrees with the counts in the file. |
| `PageTraffics.Prune` | internal/httpapi/page_traffic.go:99-112 | The loop over a ring, in place, gives the pruned ring. |
| `PageTraffics.Bump` | internal/httpapi/page_traffic.go:72-78 | The update of one slot gives the counted ring. |
| `PageTraffics.Place` | internal/httpapi/page_traffic_store.go:93-105 | The validating loop fills the ring or stops at the first bucket that is refused, exactly when the specification refuses the file. |
| `PageTraffics.Store` | internal/httpapi/page_traffic_store.go:117-127 | The buckets with views, in slot order. |
| `PageTraffics.PageTraffic.Record` | internal/httpapi/page_traffic.go:58-85 | Records a view in place, or ignores it if it is before the start, and returns what is to be written. |
| `PageTraffics.PageTraffic.SnapshotRange` | internal/httpapi/page_traffic.go:116-185 | The loop over the points gives the specified snapshot. |
| `PageTraffics.PageTraffic.Restore` | internal/httpapi/page_traffic_store.go:80-108 | Accepts exactly the files that the specification accepts, with the same rings. |
| `PageTraffics.PageTraffic.Load` | internal/httpapi/page_traffic_store.go:44-78 | Restores a file and prunes with the current time. |
| `Ordering.MergingKeepsContent` | internal/questions/fingerprint.go:131-149 | Merging repeated keys keeps, for every key, the value of its last occurrence. |
| `Ordering.MergedByFirst` | internal/questions/fingerprint.go:131-149 | Merging lists the keys by their first occurrence. |
| `Ordering.SortedIsRight` | internal/questions/fingerprint.go:155-165 | The stable sort orders the members and keeps every key with its value. |
| `Ordering.SortIsStable` | internal/questions/fingerprint.go:155-165 | A member precedes another only if its key is smaller, or neither is and it came first. |
| `Ordering.BelowIsLexicographic` | internal/questions/fingerprint.go:155-158 | The canonical order is lexicographic: a key is before another if it is the beginning of it, or smaller where they first differ. |
| `Ordering.IndexKeysAre` | internal/questions/fingerprint.go:175-178 | A key is an array index exactly if it is "0" or digits without a leading zero, of value up to 4294967294. |
| `Ordering.CanonicalIsUnique` | internal/questions/fingerprint.go:155-158 | In the canonical order a content can be listed in one way only. |
| `Ordering.LegacyOrder` | internal/questions/fingerprint.go:155-178 | The legacy order lists array indices first, ascending, then the other keys by first occurrence (section 10.1.11.1 of ECMA-262). |
| `JsonLaws.QuotingIsInjective` | internal/questions/fingerprint.go:179-208 | No two strings are quoted alike. |
| `JsonLaws.EscapesAre` | internal/questions/fingerprint.go:179-208 | Which characters are escaped, and how: two by a backslash, five by a letter, the other control characters by four lower-case digits, and nothing else. |
| `NumberTokens.NumberTokensAre` | internal/questions/fingerprint.go:102-118 | The number tokens that are read are exactly those of the grammar in section 6 of RFC 8259: sign, integer part, fraction and exponent. |
| `JsonLaws.PrintThenParse` | internal/questions/fingerprint.go:78-208 | Reading a printed value with the grammar of RFC 8259 gives the value back. |
| `JsonLaws.PrintingIsInjective` | internal/questions/fingerprint.go:90-174 | No two values are printed alike. |
| `Canonicals.NormalIsIdempotent` | internal/questions/fingerprint.go:90-174 | A canonical or legacy form is its own form. |
| `Canonicals.SameNormal` | internal/questions/fingerprint.go:90-174 | Two values have one canonical form if and only if they are equal with object members unordered, the last of a key counting. |
| `Canonicals.ReadingBack` | internal/questions/fingerprint.go:78-174 | Reading canonical or legacy text back gives the same value and the same text. |
| `Canonicals.CanonicalTextDecides` | internal/questions/fingerprint.go:78-174 | Two texts have one canonical text if and only if they stand for equal values. |
| `Canonicals.PermutedMembers` | internal/questions/fingerprint.go:131-165 | Permuting the members of an object gives an equal value. |
| `Canonicals.ShuffledTexts` | internal/questions/fingerprint.go:131-165 | A text whose objects, at any depth, list the same members in another order has the same canonical text. |
| `Canonicals.LegacyListing` | internal/questions/fingerprint.go:131-178 | The members of a legacy form: their order and, for every key, the form of its last value. |
| `Fingerprints.Quote` | internal/questions/fingerprint.go:179-208 | The loop over the characters quotes the string. |
| `Fingerprints.ReadValue` | internal/questions/fingerprint.go:90-174 | Printing while reading, token by token, gives the printed form of the whole value and leaves the rest of the tokens; fails exactly if a number is out of range. |
| `Fingerprints.ReadArray` | internal/questions/fingerprint.go:119-130 | The loop over the elements up to the closing bracket. |
| `Fingerprints.ReadObject` | internal/questions/fingerprint.go:131-171 | The loop over the members, merging repeated keys through an index, and the sorted output. |
| `Fingerprints.AddPair` | internal/questions/fingerprint.go:143-149 | A repeated key overwrites the value in place; the index keeps pointing at every key. |
| `Fingerprints.Stringify` | internal/questions/fingerprint.go:78-89 | The text's form, or failure if it is not JSON, has a rest, or a number is out of range. |
| `Fingerprints.Normalized` | internal/questions/fingerprint.go:18-47 | The text put together from the raw texts of the five fields, with the lower-case blanks and the defaults, is read as the normalized question. |
| `Fingerprints.NormalizedIs` | internal/questions/fingerprint.go:18-47 | The five members that are hashed, in order: type, body, options, blanks and version, with what the content has under "Type", "Body", "Options", "Blanks" or else "blanks", and "Version", and their defaults. |
| `Fingerprints.LegacyNormalizedIs` | internal/questions/fingerprint.go:18-47 | In the legacy form the default also stands in for a value that is not truthy, and a "Blanks" that is not truthy hides "blanks". |
| `RawTexts.ObjectTextRead` | internal/questions/fingerprint.go:18-47 | An object put together from texts of its members' values, with any spacing, is read as exactly these members. |
| `Fingerprints.Fingerprint` | internal/questions/fingerprint.go:48-54 | The digest of the canonical question, or the empty string. |
| `Fingerprints.FingerprintIs` | internal/questions/fingerprint.go:48-54 | The fingerprint is the digest of "v3", a new line, and the canonical text of these five members, or empty if a number in them is out of range. |
| `Fingerprints.FingerprintDecides` | internal/questions/fingerprint.go:48-54 | Two contents have one fingerprint if and only if they have equal values under "Type", "Body", "Options", "Blanks" (or else "blanks") and "Version", defaults included. |
| `Fingerprints.LegacyFingerprints` | internal/questions/fingerprint.go:55-63 | The digests of the content and of the normalized question in the legacy order. |
| `Fingerprints.LegacyFingerprintsAre` | internal/questions/fingerprint.go:55-63 | The two texts that are digested: of the whole content, and of the five members with the defaults for values that are not truthy, both in the legacy order. |
| `Fingerprints.Matches` | internal/questions/fingerprint.go:64-75 | A hash matches exactly if it is the fingerprint, or one of the legacy ones. |
| `Identities.SameQuestionSameKind` | internal/questions/answers.go:13-25 | Equal questions are of one kind. |
| `Identities.FingerprintsAgreeOnKinds` | internal/questions/fingerprint.go:48-54 | The bank's assumption about fingerprints and kinds holds of these fingerprints. |
| `Identities.BlanksAgree` | internal/questions/answers.go:26-33 | Equal questions have as many blanks if and only if blanks are fingerprinted or the lower-case lists are equally long. |
| `Identities.HiddenBlanks` | internal/questions/answers.go:26-33 | Two questions with equal fields and different numbers of blanks. |
| `Answers.ExtractedFits` | internal/questions/answers.go:50-119 | What extraction accepts: known option keys, sorted and without repetition, a judgement, or filled lists for blanks 1 to n. |
| `Answers.MultiIsASet` | internal/questions/answers.go:57-81 | Two sources give the same multiple-choice answer if and only if they name the same set of keys. |
| `Answers.SourceThenExtract` | internal/questions/answers.go:175-197 | Writing an accepted answer in the platform's form and extracting it gives it back, for all kinds. |
| `Answers.SourceDecides` | internal/bank/store.go:195-202 | For any question of its kind, a stored answer is extracted exactly if it fits the question. |
| `AnswerMeanings.ExtractionMeans` | internal/questions/answers.go:14-119 | A source gives an answer if and only if "is_show_answer" is true and: a "SingleChoice" shows exactly one key, an option's; a "MultipleChoice" or "MultiChoice" shows options' keys, of which the answer is the ascending set; a "Judgement" shows true or false in one of three spellings each; or a "FillBlank" lists non-empty texts for every number from 1 to as many as there are blanks. No other type gives any. |
| `Extraction.Extract` | internal/questions/answers.go:50-119 | The loops over options, values and blanks give an answer if and only if the source shows one for the question, and that one. |
| `Extraction.FillIn` | internal/questions/answers.go:94-114 | The loop over the numbered blanks. |
| `Extraction.AnswerSource` | internal/questions/answers.go:175-197 | Builds a source that presents the answer. |
| `Extraction.Body` | internal/questions/answers.go:120-140 | What is submitted for an answer. |
| `Extraction.SubmittedIsStored` | internal/questions/answers.go:120-140 | If the platform shows back what was submitted, the stored answer is extracted again; of a fill-in answer its first accepted texts. |
| `Extraction.BodyIs` | internal/questions/answers.go:120-140 | The two members that are submitted for each kind of answer. |
| `AnswerItems.WriteAnswer` | internal/bank/store.go:162-179 | Writes the rows of an answer by slot and variant; no key clashes. |
| `AnswerItems.PutKeepsOrder` | internal/bank/store.go:162-179 | A row goes to its place by slot and variant, unless its key is taken. |
| `AnswerItems.ReadAnswer` | internal/bank/store.go:132-161 | The loop over the rows gives the specified answer. |
| `AnswerItems.WriteThenRead` | internal/bank/store.go:132-179 | Every answer that extraction accepts is read back as it was written. |
| `Banks.LookupDecides` | internal/bank/store.go:51-127 | After any run of saves, observations and batches, a lookup finds x if and only if at least one valid answer was put on record, all of them are x, and x fits the question asked about. |
| `Banks.ConflictIsPermanent` | internal/bank/store.go:92-116 | Once a version is in conflict nothing is ever found for it again. |
| `Banks.BatchIsFold` | internal/bank/batch.go:17-93 | A batch leaves the tables as observing its problems one by one does, and fails if and only if one of them does. |
| `Banks.EnsuredAgain` | internal/bank/store.go:19-50 | Putting a question on record again changes nothing. |
| `BankRows.AcceptedIs` | internal/bank/store.go:19-50 | A transaction is refused exactly if its unit is not on record, the question has no fingerprint, or an option under "Options" has no key. |
| `BankRows.OptionsAreKept` | internal/bank/store.go:33-46 | Options on record stay as they are; of the others the first with a key is recorded with its place and its content, or else its value. |
| `BankRows.AnswerIsFiled` | internal/bank/store.go:92-125 | A valid answer is captured exactly if none was on record or the same one; otherwise the row is a conflict. It becomes evidence in any case, is then read back as it is, and is announced exactly if it is captured. |
| `BankRows.ObservedIsEvidence` | internal/bank/store.go:51-54 | An observed answer is evidence from the list of exercises. |
| `BankRows.ReferenceIsFiled` | internal/bank/store.go:80-91 | Without a valid answer a row changes exactly if the question is of no known type, the source shows something under "answer" or else "answers", and nothing is on record; that then is the reference text. |
| `BankRows.CountIsNoted` | internal/bank/store.go:56-71 | The number of attempts and the verdict are noted exactly if the platform gives a number of at least zero; one beyond 32 bits fails the transaction. |
| `BankServices.Service.Ensure` | internal/bank/store.go:19-50 | The version and its options are on record, or the call fails: unknown unit, no fingerprint, an option without a key. |
| `BankServices.Service.FileAnswer` | internal/bank/store.go:92-125 | Compares with the stored answer, records the evidence, and captures the answer or the conflict. |
| `BankServices.Service.Save` | internal/bank/store.go:73-127 | One transaction; succeeds exactly if it is committed and the question is acceptable. |
| `BankServices.Service.Observe` | internal/bank/store.go:51-72 | The answer and, in a second transaction, the number of attempts; succeeds exactly if both transactions that are needed are committed, the question is acceptable and the number fits its column. |
| `BankServices.Service.ObserveBatch` | internal/bank/batch.go:17-57 | A failed batch changes nothing; a successful one is the fold of the observations. |
| `BankServices.Service.Lookup` | internal/bank/store.go:186-202 | Reads, re-encodes and re-extracts; the result is exactly the one of the lookup law. |
| `Homework.RunIsSound` | server/workflow/workers/homework.js:20-43 | After any interleaving: no worker sleeps while there is work or a reason to leave, no question is submitted twice or after it was answered before, each submission carries an answer to its own version, and the books agree. |
| `Homework.StandsStillOnlyForAnswers` | server/workflow/workers/homework.js:24-30 | If nothing is in flight and someone sleeps, the producer is unfinished and no open question has an answer to its version. |
| `Homework.StepWakesNobodyTooLate` | server/workflow/workers/homework.js:8-42 | Every step keeps the absence of lost wake-ups. |
| `Homework.StepIsOrderly` | server/workflow/workers/homework.js:20-42 | Every step keeps each question with one worker and submitted at most once. |
| `Homework.StepAccounts` | server/workflow/workers/homework.js:30-41 | Every step keeps the counters equal to the listed results and to the questions processed. |
| `HomeworkResults.TurnIs` | server/workflow/workers/homework.js:21-31 | A worker gives up exactly after an abort or a failure; it submits the first question that is open, with nobody and with an answer to its version on hand, exactly if there is one; it returns exactly if there is none and all are done, or no answer will come and nobody submits; and else sleeps. |
| `HomeworkResults.SettleIs` | server/workflow/workers/homework.js:33-41 | A submission adds one result, completed exactly if the platform says that it is right, unless its error ends the worker; in any case the question is done and processed, and all sleepers look again. |
| `HomeworkResults.OpenedIs` | server/workflow/workers/homework.js:15-19 | As many questions are processed and skipped in the beginning as were answered before, and as many counted as wrong as were answered wrongly. |
| `HomeworkResults.OpenedItemsAre` | server/workflow/workers/homework.js:15-19 | The first results are those of the questions answered before, each as skipped, or as wrong exactly if the platform says so. |
| `HomeworkResults.MissedAre` | server/workflow/workers/homework.js:49 | Every question that is not done is reported as lacking an answer. |
| `HomeworkReviews.EveryQuestionIsProcessed` | server/workflow/workers/homework.js:4-49 | Every run, with any answers and at least one worker, that ends with all workers returned has processed all questions, if and only if of any question listed more than once every copy was answered before. |
| `HomeworkReviews.ListedTwice` | server/workflow/workers/homework.js:4-49 | For any two copies not both answered before, a run that returns with fewer questions processed than there are. |
| `HomeworkReviews.OverlookedAreMissing` | server/workflow/workers/homework.js:45-49 | On normal return the counters agree with the results, and the questions processed fall short of the total by exactly the overlooked copies. |
| `HomeworkReviews.CompletedMeansConfirmed` | server/workflow/workers/homework.js:50-63 | A submitted question is reported as completed if and only if, in the last list read for its exercise, the last entry with its id has the version of the exercise's first question with that id, is answered, and is judged right; otherwise as failed. |
| `HomeworkReviews.UnlookedStays` | server/workflow/workers/homework.js:50-51 | Without an exercise of its leaf that could be read, a result stays as it is. |
| `HomeworkReviews.AddedAreBlocked` | server/workflow/workers/homework.js:51 | Every result that is added stands for an exercise that could not be read. |
| `HomeworkReviews.ReviewSucceeds` | server/workflow/workers/homework.js:50-52 | The review goes through exactly if the list of every exercise that could be read before can be read again. |
| `HomeworkPools.Runner.constructor` | server/workflow/workers/homework.js:4-19 | The questions answered before are done and skipped. |
| `HomeworkPools.Runner.FindTask` | server/workflow/workers/homework.js:24 | The first open question with an answer to its version. |
| `HomeworkPools.Runner.WakeAll` | server/workflow/workers/homework.js:8 | Every sleeper is woken. |
| `HomeworkPools.Runner.TakeTurn` | server/workflow/workers/homework.js:21-31 | What a worker does until its next wait is one step of the transition system. |
| `HomeworkPools.Runner.Settle` | server/workflow/workers/homework.js:33-40 | The end of a submission, in all its outcomes, is one step of the transition system; an error that ends the worker is only reported in a later step. |
| `HomeworkPools.Runner.Fail` | server/workflow/workers/homework.js:45-47 | The error of a worker is kept and everyone is woken, as one step of the transition system. |
| `HomeworkPools.Runner.Receive` | server/workflow/workers/homework.js:9-14 | A message or an abort is one step of the transition system. |
| `HomeworkPools.Runner.ReportMissing` | server/workflow/workers/homework.js:49 | One failed result for every question that is not done. |
| `HomeworkPools.Runner.ReviewOne` | server/workflow/workers/homework.js:52-62 | Corrects the results of one exercise in place, each exactly as the fresh list shows it, and keeps the counters right. |
| `HomeworkPools.Runner.Report` | server/workflow/workers/homework.js:49-64 | Completed, failed and skipped add up to the questions processed and the exercises that could not be read; processed falls short of the total by exactly the overlooked copies; the report fails exactly if a list cannot be read again; each submitted question is completed exactly if the last list read for its exercise shows its version as answered rightly. |
| `IndexPools.NilMeansAll` | internal/learning/runner.go:87-133 | If the pool returns nil, the function has succeeded on every index below the count and on no other, under any interleaving. |
| `IndexPools.StartedOnce` | internal/learning/runner.go:87-133 | The function is started at most once on an index, and exactly on those that were handed out. |
| `IndexPools.NeverStuck` | internal/learning/runner.go:87-133 | With a worker, or once the context has ended, the pool is finished, or the function runs, or a step is possible. |
| `IndexPools.NoWorkerHangs` | internal/learning/runner.go:94-127 | Without a worker nothing can happen until the context ends. |
| `IndexPools.StepKeeps` | internal/learning/runner.go:87-133 | Every step keeps what was handed out running or succeeded unless the pool is cancelled, and cancels it only for a reason. |
| `Limiters.RateBoundIsExact` | internal/auth/limiter.go:17-44 | A key is allowed at most twice its limit in every interval as long as its window, in all runs, if and only if the window is positive or the limit is not. |
| `Limiters.RateIsBounded` | internal/auth/limiter.go:17-44 | A key with one limit and one positive window is allowed at most twice the limit in any interval of a window's length, evictions included. |
| `Limiters.DenialsAreEarned` | internal/auth/limiter.go:17-44 | With a positive window no call is denied unless more than 20000 buckets are live, or as many calls of the key as its limit have been allowed within the last window. |
| `Limiters.AnswersAreIdeal` | internal/auth/limiter.go:24-43 | Every call of a run is answered as by a limiter that forgets nothing, unless the table is full, and then it is denied. |
| `Limiters.EvictionIsUnobservable` | internal/auth/limiter.go:24-33 | One step of that refinement. |
| `Limiters.SizeIsBounded` | internal/auth/limiter.go:24-42 | The table never holds more than 20001 entries. |
| `Limiters.OnlyExpiredLeave` | internal/auth/limiter.go:24-33 | A bucket is deleted only if it has expired and there are more than 10000. |
| `Limiters.NoWindowNoLimit` | internal/auth/limiter.go:34-43 | Without a positive window every call is allowed. |
| `Limiters.Limiter.Allow` | internal/auth/limiter.go:17-44 | The method answers and leaves the table as the specification does. |
| `Limiters.Limiter.Sweep` | internal/auth/limiter.go:25-29 | The loop deletes exactly the expired buckets. |
| `Jobs.GenerationsNeverDecrease` | internal/jobs/repository.go:77-183 | Over any run no module's generation decreases and no module is forgotten. |
| `Jobs.BeginIsFresh` | internal/jobs/repository.go:103-113 | Every beginning gets a generation greater than any before. |
| `Jobs.WritesAreFenced` | internal/jobs/repository.go:103-149 | A progress, finish or crash write with the generation of a beginning counts only if nothing has bumped the module since. |
| `Jobs.WhatBumps` | internal/workflow/actors.go:117-155 | Exactly which events bump a module: beginnings, controls, account changes, restarts of the service. |
| `Jobs.OneFinishPerGeneration` | internal/jobs/repository.go:138-149 | At most one finish per generation takes effect. |
| `Jobs.FinishedAsRunning` | internal/jobs/repository.go:138-149 | A second finish would count if and only if the first reported the module as running. |
| `Jobs.OneRestartPerModule` | internal/workflow/actors.go:52-56 | At most one crash restart takes effect in the life of a module. |
| `Jobs.DoneEnds` | internal/jobs/repository.go:150-183 | A module stops being done exactly by a pause or stop that covers it, or a crash restart with its generation. |
| `Jobs.JobsBecomeDone` | internal/jobs/repository.go:184-192 | Over any run a job becomes done exactly at an aggregation at which all of its modules are done. |
| `Jobs.RecoveryFences` | internal/jobs/recovery.go:24-32 | Over any run: after the service has restarted, no report or finish with a generation from before the restart counts in a job that was active. |
| `JobChanges.StartsRunning` | internal/jobs/repository.go:103-113 | A module starts running exactly when it is begun while queued in a running job. |
| `JobChanges.BecomesDone` | internal/jobs/repository.go:138-149 | It becomes done exactly when the holder of its generation ends it so in a running job, or the engine marks it. |
| `JobChanges.GoesBack` | internal/workflow/actors.go:117-155 | It goes back into the queue exactly by its one crash restart, by a resume that covers it unless it is done, by a restart of the service while it is under way, by a change of accounts that frees it, or because it is ended or marked so. |
| `JobChanges.WaitsForAccount` | internal/workflow/actors.go:138-150 | It comes to wait for an account exactly if the one it depends on is gone, or because it is ended or marked so. |
| `JobChanges.HeldByUser` | internal/jobs/repository.go:150-183 | It is paused or stopped exactly by the user's control that covers it, or because it is ended or marked so. |
| `JobChanges.NumbersAfter` | internal/jobs/repository.go:103-149 | A step raises a generation or a count of restarts by one at most, and a total to what the holder of the generation reports. |
| `JobChanges.FinishWrites` | internal/jobs/repository.go:138-149 | The holder's result becomes the module's status, and no other module changes. |
| `JobChanges.AddedAre` | internal/jobs/repository.go:77-82 | Exactly the kinds that are new get a module: queued, of generation 0, never restarted. |
| `JobChanges.AggregatedIs` | internal/jobs/repository.go:184-192 | What an aggregation makes of a job, for each of the four results. |
| `JobChanges.JobStatusAfter` | internal/jobs/repository.go:150-183 | Which of the other events change the status of a job, and to what. |
| `JobChanges.RevisionAfter` | internal/jobs/repository.go:86-93 | The revision goes up by one exactly with the writes that are announced. |
| `Jobs.Record.BeginModule` | internal/jobs/repository.go:103-113 | Begins a queued module of a running job with a generation greater than any that was ever current. |
| `Jobs.Record.FinishModule` | internal/jobs/repository.go:138-149 | Takes effect exactly if the generation is current; otherwise nothing changes; as one step of the transition system. |
| `Jobs.Record.Report` | internal/jobs/repository.go:114-137 | Takes effect exactly if the generation is current. |
| `Jobs.Record.RestartCrashed` | internal/workflow/actors.go:52-56 | Restarts a crashed module once. |
| `Jobs.Record.ControlModules` | internal/jobs/repository.go:150-183 | After a pause or stop no earlier generation of a module it covers can write. |
| `Jobs.Record.AddModules` | internal/jobs/repository.go:77-82 | The loop adds the missing modules and no others. |
| `Scheduling.RunKeeps` | internal/workflow/engine.go:125-206 | In every reachable state the global and per-owner limits hold, and whatever is prepared or runs belongs to an admitted job. |
| `Scheduling.FirstInFirstOut` | internal/workflow/engine.go:145-187 | A dispatch considers every candidate once, each owner's in the order of creation. |
| `Scheduling.OwnersTakeTurns` | internal/workflow/engine.go:146-172 | The owner admitted last is considered again only if all that are left are that owner's. |
| `Scheduling.NobodyIsLeftBehind` | internal/workflow/engine.go:145-187 | After a dispatch every candidate is being prepared, or is new and held back by a limit. |
| `Scheduling.AdmittedAreBegun` | internal/workflow/engine.go:156-174 | The candidates that a dispatch admits are exactly those whose preparation it begins. |
| `Scheduling.SettlingFrees` | internal/workflow/engine.go:189-199 | Settling a job that rests takes it off the books, one job less in all and of its owner; settling one that is prepared or runs changes nothing. |
| `Scheduling.SettlingAdmits` | internal/workflow/engine.go:156-199 | A candidate that only the slot of a job at rest holds back is not admitted before that job is settled, and is admitted after it. |
| `Scheduling.LeavesBySettling` | internal/workflow/engine.go:189-199 | Over any run an admitted job leaves the books only by being settled while it is neither prepared nor running. |
| `Scheduling.StepKeeps` | internal/workflow/engine.go:156-206 | Every step keeps limits and admission. |
| `Scheduling.Engine.Dispatch` | internal/workflow/engine.go:145-187 | The loop over the shrinking list is the specified dispatch. |
| `Scheduling.Engine.ConsiderOne` | internal/workflow/engine.go:156-174 | One candidate is admitted or passed over. |
| `Scheduling.Engine.PickNext` | internal/workflow/engine.go:147-153 | The first candidate of another owner, or the first. |
| `Scheduling.Engine.SettleJob` | internal/workflow/engine.go:189-206 | A job is given up exactly if it is neither being prepared nor has a module running; then it, and nothing else, leaves the books. |
| `Scheduling.Engine.StartActor` | internal/workflow/actors.go:12-23 | A module is registered once, while its job is being prepared. |

## Left out

- Submissions.AtMostOneAcceptance: rests on the assumptions about the platform listed above; the checks of role and answer before the journal is opened, and the bodies of requests, are not part of the state.
- Journals.Journal.Save: the result payload of a record is not kept; the query that finds earlier records is the list passed to PreserveLegacy.
- Submitters.Submitter.Submit: the lengths of its waits are not modelled; a wait may end the run at any point. The bank's save at the end is one given outcome.
- Effects.RedundantWritesArePaidFor: of the progress check only its four outcomes are kept, not the requests and metadata checks behind them.
- Effectors.Effector.Effect: within one call nobody else finishes the unit; between calls, and in the runs of module Effects, anybody may.
- Retry.Call: the wait that a server hint asks for is only bounded from below by the backoff.
- BrokerLoops.Loop.Scan: one scan reads the clock once, where the source reads it for every request; the goroutines that perform the requests are the events between scans.
- BrokerLoops.Loop.Close: what the requests in flight at closing are answered in the end is not stated.
- PageTraffics.PageTraffic.SnapshotRange: the missing tracker (no counts at all) and the labels of the response are not modelled.
- Fingerprints.ReadValue: the decoder hands out the tokens of a text that has been read as a whole; a text that is not JSON fails at once instead of half-way, with the same result. Texts that are not valid UTF-8 are not modelled.
- Fingerprints.Normalized: the splitting of the content into the raw texts of its members is done by the decoder of the standard library, and is given: any texts that are read as the members' values.
- Banks.LookupDecides: question versions imported from earlier releases, and their verification by a lookup, are not modelled; nor are identifiers, timestamps, positions and html of a version.
- Jobs.Record.Report: the item and log rows that are written with a report are not kept.
- Jobs.RecoveryFences: the repairs of jobs that older releases had stopped by mistake, recognised by their messages, are not modelled.
- Homework.RunIsSound: progress messages are not modelled; a worker's continuation after an answer and its next turn are two steps instead of one, which allows more interleavings.
- Scheduling.NobodyIsLeftBehind: a dispatch is one step, while in the source preparations may end and be settled between two candidates of one dispatch.
- The number formatting of JSON, SHA-256, time zones, the parsing of retry hints and the idea of a truthy value are parameters.
- Job creation's conflict rule, job items and events, and coverage are plain table writes without a rule across calls.
- The JavaScript twins of the submission protocol and of the broker, and what the Go homework, media and collector runners do inside their pool: the same protocols over again, or weaker forms of them.
- Login, registration, mail, enrollment offers, catalogue discovery, routes, the web client, process hosting and the SQL itself: no rule that spans calls, or outside code.
