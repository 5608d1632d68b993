# Verification of murlog

murlog is a small ActivityPub server for one person. This project models, in Dafny, the parts of it
whose correctness is not visible from one function: the background job queue and its workers, the
fan-out of posts to followers, the EXIF rewriter, the codecs (identifiers, HTTP signatures,
murlog.ini), and the state that has to stay consistent over all runs (cached counters, blocks, the
login limiter).

Run `dafny verify dfyconfig.toml` (Dafny 4.11) to check everything.

## How it is modelled

* **Queue.** `JobTable` holds one function for each SQL statement on `queue_jobs` and the class
  `JobQueue`, whose methods run those statements. `Lease` lets any number of workers, sweepers and
  operators take turns, one statement at a time, under a clock that never goes back; the two updates of
  `RecoverStale` are two steps, other steps may come in between. `Attempts`, `Starvation` and `Drain`
  prove theorems about every run of that machine. Stored times are whole seconds, rounded down; instants
  are nanoseconds.
* **Pool.** The goroutines of `Run` and `RunBatch` are a state machine over the semaphore variable, its
  channels, the wait group and the dispatching loop.
* **Fan-out.** `Fanout` runs the paging loop against a follower table that may be different at every
  query; `FanoutTheorems` says who is passed on and how often, `FanoutHandlers` what the job handlers
  make of it, and `FanoutRefollow` shows a table whose change gets an actor two deliveries.
* **EXIF.** `Jpeg` is the scanner, the TIFF reader in both byte orders, the filter and the writer;
  `JpegTheorems` relates them, and `JpegBytes` states what they do over the bytes themselves.
* **Codecs.** `Uuid`, `UuidForm` and `Poll`; `Signature`, `Signing` and `Replay`; `Ini` and `IniTheorems`.
* **Consistent state.** `Counters`, `Blocks` and `LoginLimiter` are classes with the program's calls.
  `CounterRaces` and `BlockRaces` take the same calls apart into their statements and interleave them.

Each operation that works by changing things is a method tied to a function of its inputs or of the
old state, and besides its contract says what that function means: field by field, byte by byte or
condition by condition, with the constants written out. The theorems are lemmas about those functions
and about all runs.

## Where the code and its description differ

* `worker/worker.go:322` announces retries after 30 s, 2 min, 8 min and 32 min. Line 323 doubles each
  time: 30, 60, 120 and 240 s. The model follows the code.
* `media/imageproc/strip.go:31-35` says that a file without APP1 is returned unchanged. The loops stop
  when fewer than four bytes are left, so one to three leftover bytes are dropped
  (`JpegTheorems.LeftoverIsDropped`). `JpegTheorems.UnchangedExactly` gives the exact condition. A file that
  already is in the stripped form also comes back as it was.
* The fan-out handlers ignore the result of the inserts they make before the fan-out. "Exactly one
  delivery for each actor owed one" therefore holds if and only if those inserts went through
  (`FanoutHandlers.AnnounceReachesAllOwed`, `FanoutHandlers.PostReachesAllOwed`).
* The mention loop of a new post does not look at the set of actors already served, and the fan-out of
  posts, updates and deletions does not add to it. Two accounts of one actor
  (`FanoutHandlers.DoubleMentionServesTwice`) and a follower who leaves and comes back meanwhile
  (`FanoutRefollow.RefollowServesTwice`) are served twice. Over a steady table, nobody is if and only if
  the mentions are distinct (`FanoutHandlers.StoredPostReachesAllOwed`).
* The semaphore bounds the jobs being worked on, not the goroutines: a goroutine gives its token back
  before it reports to the wait group (`Pool.GoroutinesMayExceedCap`).
* A lease is safe as long as every claim is settled within 300 s and operators use Retry and Dismiss on
  failed and dead jobs only. The program enforces neither: `JobTimeout` does not bound how long a claim
  is held, and `handler/api_mur_queue.go:91-123` updates a job of any status. A slow worker does lose
  its job to another (`Lease.SlowWorkerLosesLease`), and so does one whose job is retried while it runs
  (`Lease.RetryBreaksLease`).
* "At most five attempts" does not hold for jobs that panic: the panic path
  (`worker/worker.go:122-130`) never looks at the limit (`Attempts.PanicsAreNotCounted`). Nor does it
  hold when the first update of `RecoverStale` fails, since its error is ignored and the second update
  puts jobs without attempts back in line, nor after a Retry. `Attempts.SixthTryExactly` says exactly
  when a job gets beyond five.
* The deliveries of a fan-out page are stamped when they are made and inserted together later. They can
  enter the queue ahead of a job that was due before them (`Starvation.LatecomerOvertakes`). Only
  executions claimed by then can bring in such rows, so the bound on waiting counts what they have left.
* A signed request is not accepted in every case: the signer covers the host of the URL, the server
  sees the host of the request. `Signing.SignedIsAccepted` gives the exact condition.
* A block does not exclude follows that have passed the check already
  (`BlockRaces.OvertakenFollowStays`), and a counter can go wrong when a delete by id is overtaken by
  the insert of that id (`CounterRaces.OvertakenDeleteMiscounts`). The theorems beside them say when
  neither happens.
* A login with the right password and no one-time code is refused but not counted
  (`handler/api_mur_auth.go:76-78`), so the bound of `LoginLimiter.LimitHolds` is on wrong passwords
  and wrong codes. The login handler also ignores the errors of its store calls; a failed read of the
  count even lifts a lock. The bound counts such attempts.

## Model

| member | source | states |
|---|---|---|
| `JobTable.JobQueue.HasPending` | queue/sqlqueue/sqlqueue.go:35-44 | true exactly if a Claim at the same instant would find a row to take |
| `JobTable.JobQueue.Enqueue` | queue/sqlqueue/sqlqueue.go:46-56 | one new row, or nothing when the id is taken |
| `JobTable.JobQueue.EnqueueBatch` | queue/sqlqueue/sqlqueue.go:58-84 | the transaction stores all rows exactly if the ids are new and pairwise distinct, and otherwise none |
| `JobTable.InsertedExact` | queue/sqlqueue/sqlqueue.go:58-84 | after a stored batch every job of it is a row, every old row is as before, and there are no others |
| `JobTable.JobQueue.Claim` | queue/sqlqueue/sqlqueue.go:86-131 | takes a waiting row with the earliest stamp among those due, marks it running under the claim time and counts the attempt, all other columns as before; returns nothing and writes nothing exactly if there is no such row |
| `JobTable.JobQueue.Complete` | queue/sqlqueue/sqlqueue.go:133-143 | the row is done at the second of the call, without payload and error, its kind, attempts, stamps and every other row as before, whatever status it had; nothing without that row |
| `JobTable.JobQueue.Bury` | queue/sqlqueue/sqlqueue.go:145-153 | Dead: the row is dead at that second with its error, its payload, attempts, stamps and every other row as before, whatever status it had |
| `JobTable.JobQueue.Fail` | queue/sqlqueue/sqlqueue.go:155-163 | the row is failed and waits until the given second, rounded down, with its error; the other columns and every other row as before |
| `JobTable.JobQueue.Retry` | queue/sqlqueue/sqlqueue.go:165-173 | the row is pending from now on, without error, and keeps its payload and attempts; every other row as before |
| `JobTable.JobQueue.RecoverStale` | queue/sqlqueue/sqlqueue.go:271-294 | both updates in their order, where an error of the first is passed over and one of the second returned; the count is that of the rows put back |
| `JobTable.RecoverStaleOutcome` | queue/sqlqueue/sqlqueue.go:275-289 | a stale row dies if it has five attempts behind it and is ready again at once otherwise; every other row is untouched; the same for each of the two updates alone |
| `JobTable.JobQueue.Cleanup` | queue/sqlqueue/sqlqueue.go:298-306 | a row stays exactly if it is neither done nor dead, or was created at or after the given second; it stays as it is, and the deleted ones are counted |
| `JobTable.JobQueue.CancelByDomain` | queue/sqlqueue/sqlqueue.go:310-322 | deletes the waiting rows that match either pattern, counts them, and leaves the others as they are |
| `JobTable.CancelExact` | queue/sqlqueue/sqlqueue.go:310-322 | for a plain host name these are exactly the waiting rows whose payload has the host between a scheme separator and a slash or a port |
| `JobTable.LikeContains` | queue/sqlqueue/sqlqueue.go:313-318 | a plain text between two wildcards matches exactly the strings that contain it, letters compared without case |
| `Lease.StaleMeansOverdue` | queue/sqlqueue/sqlqueue.go:271-289 | with truncated stamps a claim is stale only after strictly more than 300 s, and surely after 301 s |
| `Lease.NewJobWaits` | murlog.go:533-543 | a new job is pending, due at once, with no attempt and no error |
| `Lease.FanoutHasTwoLevels` | worker/worker.go:262-306 | what a fan-out job enqueues enqueues nothing itself |
| `Lease.OwnedStep` | queue/sqlqueue/sqlqueue.go:86-163 | no step of anybody else takes the row of a live claim away |
| `Lease.LeaseSafety` | queue/sqlqueue/sqlqueue.go:86-163 | over every interleaving, if claims are settled within 300 s and Retry and Dismiss meet failed and dead jobs only: no job is held twice, and every settle hits a row still running under that very claim |
| `Lease.SlowWorkerLosesLease` | worker/worker.go:183-227 | the 300 s are needed: a run in which a slow worker and another hold the same job |
| `Lease.RetryBreaksLease` | handler/api_mur_queue.go:91-106 | and so is the operators' restraint: a run in which every claim is young, a running job is retried, and two workers hold it |
| `Attempts.AttemptBound` | worker/worker.go:317-325 | over every such run a job is claimed at most 5 times, plus once for each time a retry, a panic or a sweep put it back when it was out of attempts, and is not waiting any more once it has used those up |
| `Attempts.SixthTryExactly` | worker/worker.go:317-325 | a waiting job has five claims or more behind it if and only if it was put back when it was out of attempts: by Retry, by its panic, or by the second update of a sweep |
| `Attempts.FiveClaimsAtMost` | queue/sqlqueue/sqlqueue.go:275-289 | without retries, panics and sweeps with a failed first update: at most five claims, and after the fifth the job is running, done or dead, also across crashes and other sweeps |
| `Attempts.PanicsAreNotCounted` | worker/worker.go:122-130 | the panic path does not look at the limit: for every n there is a run, with no retry and no sweep, in which a job is claimed n times |
| `Attempts.DelayIsPower` | worker/worker.go:322-324 | the delay after attempt a is 30 * 2^(a-1) seconds |
| `Attempts.BackoffSpacing` | worker/worker.go:322-324 | the n-th claim of a job that only returned errors comes at least 30 * (2^(n-1) - 1) stored seconds after the first |
| `Starvation.AheadShrinks` | queue/sqlqueue/sqlqueue.go:91-104 | every stamp the queue writes is later, so only jobs stamped earlier and inserted late join the rows ahead of a ready job |
| `Starvation.ClaimTakesFromAhead` | queue/sqlqueue/sqlqueue.go:95-104 | while a job is ready, each claim takes it or one of the rows ahead of it, which then leaves their set |
| `Starvation.LineShortens` | worker/worker.go:964-977 | counted with the deliveries that executions claimed by then may still insert, the line ahead of a ready job gets shorter with each claim and longer with no step |
| `Starvation.NoStarvation` | queue/sqlqueue/sqlqueue.go:91-104 | over every interleaving, once the clock has passed its second and new requests are stamped later, a ready job is claimed within as many claims as that line is long now, unless it is addressed otherwise first |
| `Starvation.SettlesSpareWaitingJobs` | worker/worker.go:308-335 | under the lease, the end of an execution is never such an interference |
| `Starvation.NoStarvationUnderLease` | queue/sqlqueue/sqlqueue.go:91-104 | under the lease only Retry, Dismiss and the cancellation of its domain can come between a ready job and its claim within that many claims |
| `Starvation.LatecomerOvertakes` | worker/worker.go:964-977 | those deliveries do count: one made at second 0 by an execution claimed then, and inserted with its page later, overtakes a job that was due before |
| `Drain.PotentialStep` | worker/worker.go:262-325 | a claim lowers the number of claims still possible, counted over both levels of jobs, and no other step raises it |
| `Drain.QueueDrains` | worker/worker.go:262-325 | with no new request, retry, panic or sweep with a failed first update, the number of claims in any run is bounded by the state it starts in |
| `Pool.Worker.constructor` | worker/worker.go:63-77 | 8, 32 and 7 days for what is not given, and an upper bound no lower than the lower one |
| `Pool.Worker.Execute` | worker/worker.go:255-335 | what is written about a job when it ends: done after success; after an error dead from the fifth attempt on and before that failed until 30, 60, 120 or 240 s from now; after a panic failed until 30 s from now; no other row changes |
| `Pool.Decide` | worker/worker.go:239-253 | the lower bound below 100 pending jobs and without statistics, the middle below 500, the upper bound from there on |
| `Pool.EvaluationTakesEffect` | worker/worker.go:105-115 | in every run, when the loop goes on after a look at the queue, the level is the lower bound, the middle or the upper bound for fewer than 100, fewer than 500 and more pending jobs |
| `Pool.LooksAtTheQueue` | worker/worker.go:98-104 | and between two looks at most nine jobs are claimed, and no poll that found nothing lies between them |
| `Pool.ConcurrencyCap` | worker/worker.go:87-160 | over every run the jobs being worked on never outnumber the current level, which stays between the bounds |
| `Pool.ReleaseMatchesAcquire` | worker/worker.go:117-133 | although a goroutine reads the semaphore variable only at its end, it finds the channel it sent to and a token in it |
| `Pool.SwapFindsChannelsEmpty` | worker/worker.go:107-114 | a semaphore is replaced only when no goroutine is left and no channel holds a token |
| `Pool.BatchReturnsItsClaims` | worker/worker.go:183-227 | a batch claims at most its limit and returns exactly the number claimed, after all have reported |
| `Pool.NeverStuck` | worker/worker.go:87-160 | in every reachable state in which the loop has not returned, the loop or a goroutine can take a step |
| `Pool.GoroutinesMayExceedCap` | worker/worker.go:117-133 | a run in which there are more goroutines than the level allows jobs |
| `Fanout.PageIsExact` | store/sqlite/follow.go:149-170 | a page is ascending and holds exactly the approved followers of the persona beyond the cursor, up to its size |
| `Fanout.FanoutToFollowers` | worker/worker.go:944-985 | the loop ends when ids are finite in number; its pages, cached answers, skipped hosts and batches are as specified; every batch with a delivery counted as sent went in, a listing or such a batch that fails ends the run with an error, and a run succeeds only if neither failed and the last page was not full |
| `FanoutTheorems.SeenAscends` | worker/worker.go:957-983 | ids come in ascending order over all pages, however the table changes |
| `FanoutTheorems.SteadyFollowersAreMet` | worker/worker.go:957-983 | whoever is an approved follower at every query of a finished run is met |
| `FanoutTheorems.CacheIsFirstAnswers` | worker/worker.go:945-955 | the cached answer for a host is the one given when it was first met |
| `FanoutTheorems.OneDecisionPerDomain` | worker/worker.go:945-969 | a follower met is passed on exactly if the final cache calls its host live: one decision for each host |
| `FanoutTheorems.FollowersPassedOnce` | worker/worker.go:944-985 | nobody is passed on twice; every steady follower on a live host is; and whoever is was an approved follower at some query |
| `FanoutTheorems.TrackedDeliveries` | worker/worker.go:1360-1372 | with the set kept up to date: one delivery for each actor passed on and not served before, however many ids it had |
| `FanoutTheorems.UntrackedDeliveries` | worker/worker.go:1097-1103 | without: one delivery for every id under which an actor not served before was passed on |
| `FanoutTheorems.SucceedsExactly` | worker/worker.go:957-985 | a run succeeds if and only if its last page has fewer than 100 followers and no batch with a delivery in it was refused; no page follows a listing that failed |
| `FanoutTheorems.RefusedBatchEndsRun` | worker/worker.go:973-977 | the first refused batch ends the run with an error, and what counts as sent is what was given before its page |
| `FanoutTheorems.SentStandsInBatch` | worker/worker.go:971-978 | every delivery a run reports, also when it breaks off, stands in the batch of one of its pages, and that batch went in |
| `FanoutHandlers.HandleAnnounce` | worker/worker.go:1334-1373 | the author's insert and the fan-out behind it; nobody gets two deliveries, and after success the author has one if his insert went in, the others exactly if passed on |
| `FanoutHandlers.SentWereListed` | worker/worker.go:957-977 | also in a run that breaks off, nobody gets a delivery who was not an approved follower at some query |
| `FanoutHandlers.AnnounceDelivers` | worker/worker.go:1347-1372 | over a table that changes between queries: at most one delivery each; after success one for the author exactly if his insert went in, one for every steady follower on a live host, none for anybody who was never listed on one |
| `FanoutHandlers.AnnouncedIsStored` | worker/worker.go:1347-1373 | nothing counts as enqueued, also in a run that breaks off, that neither the author's insert nor a batch that went in has stored |
| `FanoutHandlers.AnnounceReachesAllOwed` | worker/worker.go:1347-1372 | for a table that stays the same: exactly one delivery for each of the author and the approved followers on live hosts, if and only if there is no author or his insert went in |
| `FanoutHandlers.AnnounceOverAttempts` | worker/worker.go:957-983 | a job tried again repeats what its broken-off attempts had stored: over all attempts nobody gets more deliveries than there were attempts, and if the last succeeds every steady follower on a live host has one |
| `FanoutHandlers.MentionDeliveries` | worker/worker.go:498-523 | a delivery for every mention, and one for the author replied to unless mentioned |
| `FanoutHandlers.HandlePost` | worker/worker.go:420-535 | every actor has the direct deliveries that were stored, whichever they are, and what the fan-out sent him, also when it breaks off |
| `FanoutHandlers.PostedIsStored` | worker/worker.go:498-534 | nothing counts as enqueued, also in a run that breaks off, that was not stored by the insert for a mention, by that for the author replied to, or in a batch that went in |
| `FanoutHandlers.PostServesOnce` | worker/worker.go:498-534 | whichever direct inserts went in: at most one delivery each if and only if nobody has two direct ones and nobody was met under two ids; and exactly who gets one |
| `FanoutHandlers.PostDelivers` | worker/worker.go:420-535 | over a changing table, whichever direct inserts went in: everybody mentioned or replied to has those that did; every other steady follower on a live host has one, one only if nobody was listed under two ids; nobody else has any |
| `FanoutHandlers.PostReachesAllOwed` | worker/worker.go:697-749 | for a steady table: exactly one delivery for everybody mentioned, replied to or following on a live host and none for others, if and only if exactly one direct insert went in for each mention and one for an unmentioned author replied to |
| `FanoutHandlers.StoredPostReachesAllOwed` | worker/worker.go:498-523 | when all direct inserts go in, that is the case if and only if the mentions are distinct, which is also exactly when nobody gets two |
| `FanoutHandlers.PostOverAttempts` | worker/worker.go:957-983 | over all attempts of a post, an update of a post or of the actor, or a deletion: no more deliveries than attempts if each had distinct mentions and no actor under two ids, and at least one for a steady follower if the last succeeds |
| `FanoutHandlers.DoubleMentionServesTwice` | worker/worker.go:498-504 | two accounts that resolve to one actor get him two deliveries |
| `FanoutRefollow.RefollowServesTwice` | worker/worker.go:526-534 | and so does a follower who leaves and comes back between two queries, although the unique index holds at each, the host is live and nothing fails |
| `FanoutHandlers.OneIdPerActorSuffices` | worker/worker.go:525-534 | an actor listed under one id only over the run is not met twice |
| `FanoutHandlers.SteadyTableSuffices` | store/sqlite/migrations/0001_init.sql:91-98 | for a table that stays the same the unique index is enough |
| `FanoutHandlers.UntrackedDelivers` | worker/worker.go:944-985 | over a changing table, without a set kept up to date: a delivery for each id an actor was met under, at least one for a steady follower on a live host, at most one if nobody was listed under two ids |
| `FanoutHandlers.SentAtMostOnce` | worker/worker.go:957-977 | also when a run breaks off, nobody gets two from it if no actor was listed under two ids |
| `FanoutHandlers.BroadcastDelivers` | worker/worker.go:1086-1103 | updates of the actor and deletions of a post, over a changing table: every steady follower on a live host is delivered to, once if nobody was listed under two ids, and nobody who was never listed on one |
| `FanoutHandlers.BroadcastReachesFollowers` | worker/worker.go:1086-1103 | for a steady table: exactly one delivery for each approved follower on a live host, none for anybody else |
| `Jpeg.ScanLosesNothing` | media/imageproc/strip.go:125-169 | the scan takes a file apart into segments and a rest that is no whole segment, without loss |
| `Jpeg.FirstTaggedEntry` | media/imageproc/strip.go:109-121 | the directory walk returns the value of the first entry with the orientation tag |
| `Jpeg.NoTaggedEntry` | media/imageproc/strip.go:109-121 | and 0 without one |
| `Jpeg.ParseOrientation` | media/imageproc/strip.go:83-121 | the orientation in an EXIF payload of either byte order, 0 for anything malformed |
| `JpegBytes.BigEndianOrientation` | media/imageproc/strip.go:94-121 | over the bytes of a payload marked MM: tag, offset, count and value are read high byte first, and the result is the value of the first entry in range with tag 01 12, or 0 |
| `JpegBytes.LittleEndianOrientation` | media/imageproc/strip.go:92-121 | the same for a payload marked II, low byte first |
| `JpegBytes.OtherPayload` | media/imageproc/strip.go:85-98 | any other payload gives 0 |
| `JpegBytes.BigEndianReadsBack` | media/imageproc/strip.go:94-121 | a big-endian payload with one entry, written out byte by byte, is read as its value, for every 16-bit value |
| `JpegBytes.LittleEndianReadsBack` | media/imageproc/strip.go:92-121 | and so is a little-endian one |
| `Jpeg.FindOrientation` | media/imageproc/strip.go:49-79 | the orientation of the first APP1 segment among the header segments |
| `JpegBytes.FirstApp1Counts` | media/imageproc/strip.go:72-74 | the first header segment with marker E1 decides, whatever it holds |
| `JpegBytes.HeadOverBytes` | media/imageproc/strip.go:51-70 | what is taken as a header segment: FF, a marker other than DA, and a length that counts itself, high byte first, and fits the file |
| `Jpeg.RemoveApp1Markers` | media/imageproc/strip.go:125-169 | the marker, the other segments in order, and the rest unless it is shorter than four bytes |
| `Jpeg.InjectOrientation` | media/imageproc/strip.go:174-216 | the segment stands right behind the marker: the scanner finds it before the segments of the file, and its orientation is read |
| `JpegBytes.SegmentBytes` | media/imageproc/strip.go:174-208 | the written segment, byte by byte |
| `Jpeg.StripEXIF` | media/imageproc/strip.go:17-44 | the three parts put together, in all their cases |
| `JpegTheorems.Rescan` | media/imageproc/strip.go:125-169 | segments delimit themselves: a file made of whole segments and a rest is scanned into just these |
| `JpegTheorems.FilterKeepsInOrder` | media/imageproc/strip.go:158-165 | every segment other than APP1 is kept, in its place among the kept ones |
| `JpegTheorems.SegmentsConserved` | media/imageproc/strip.go:125-169 | the filtered file is scanned into the original's segments without APP1, and its rest is the original's, less a leftover of up to three bytes |
| `JpegTheorems.SameLength` | media/imageproc/strip.go:31-35 | nothing was lost exactly if the lengths agree, and that is the case exactly without APP1 and leftover |
| `Jpeg.OrientationReadsBack` | media/imageproc/strip.go:174-216 | the reader undoes the writer for every 16-bit value |
| `JpegTheorems.OrientationKept` | media/imageproc/strip.go:17-44 | the stripped file has the orientation of the original if that asks for a rotation, and none otherwise |
| `JpegTheorems.StripIdempotent` | media/imageproc/strip.go:17-44 | stripping again changes nothing, for every byte sequence |
| `JpegTheorems.UnchangedExactly` | media/imageproc/strip.go:31-35 | exactly which files come back byte for byte |
| `JpegTheorems.LeftoverIsDropped` | media/imageproc/strip.go:129-130 | FF D8 00 has no APP1 and comes back as FF D8 |
| `Uuid.NewWithTime` | id/id.go:28-53 | 48 bits of milliseconds in front, version and variant over the random bytes |
| `UuidForm.VersionAndVariant` | id/id.go:44-50 | the version is 7 and the variant that of RFC 9562, and all other bits of the last ten bytes stay random |
| `Uuid.TimeRecovered` | id/id.go:112-116 | Time gives the millisecond back exactly if it fits 48 bits |
| `Uuid.EarlierIsLess` | id/id.go:28-53 | an earlier millisecond gives a smaller identifier, whatever the random bytes |
| `Uuid.Parse` | id/id.go:58-76 | drops hyphens anywhere and decodes 32 hexadecimal digits of either case |
| `Uuid.ParseUndoesPrint` | id/id.go:58-94 | Parse undoes String |
| `Uuid.ParsesExactly` | id/id.go:58-76 | exactly which strings parse |
| `Uuid.PrintOrder` | id/id.go:91-94 | the order of printed identifiers is the order of their bytes |
| `UuidForm.PrintForm` | id/id.go:89-94 | a printed identifier has 36 characters, hyphens behind 8, 4, 4 and 4 digits, and the digits of the bytes in between |
| `UuidForm.HexText` | id/id.go:91-94 | each byte is printed as two lower-case digits, the high half first |
| `UuidForm.ParsedBytes` | id/id.go:58-76 | what parses stands for its digits, those of upper case included, in pairs behind the hyphens taken out |
| `Poll.NewerAreInFront` | handler/api_mur_notifications.go:209-212 | in a list sorted newest first, all newer ones stand before the first that is not |
| `Poll.NotificationsPoll` | handler/api_mur_notifications.go:180-224 | exactly the newest limit notifications beyond the cursor, with a limit of 20 unless one from 1 on is given, and of 100 at most: neither the early break nor the row limit loses one |
| `Signature.BuildSigningString` | activitypub/signature.go:245-265 | one line for each name, in order |
| `Signature.BuildSigningStringStrict` | activitypub/signature.go:216-241 | succeeds exactly if every named header is there, and then agrees with the lax builder |
| `Signature.SplitUndoesJoin` | activitypub/signature.go:60-62 | splitting undoes joining for names without the separator |
| `Signature.ScanListing` | activitypub/signature.go:271-288 | a printed list of quoted pairs is scanned into just these pairs |
| `Signature.HeaderReadsBack` | activitypub/signature.go:275-288 | the parser recovers all four formatted parameters when they contain no quote |
| `Signature.KeyIdReadsBackExactly` | activitypub/signature.go:60-62 | the key identifier comes back if and only if it has no quote in it |
| `Signing.Request.SignRequest` | activitypub/signature.go:26-63 | sets Date, Host, with a body Digest, and a Signature over target, host, date and digest, and no other header |
| `Replay.SignedText` | activitypub/signature.go:245-265 | the signed text in full, with and without a body |
| `Replay.HeaderWritten` | activitypub/signature.go:57-60 | the Signature header in full |
| `Signing.VerifyDigest` | activitypub/signature.go:194-212 | passes exactly if there is no digest or it is that of the body |
| `Signing.VerifyRequest` | activitypub/signature.go:75-149 | each verdict is given exactly if its own check is the first to fail: a header that parses, an algorithm that is absent or known, the date among the signed names, a date within 13 h, the digest of the body, every named header present, base64, the signature |
| `Replay.AcceptedMeans` | activitypub/signature.go:75-149 | whoever made the Signature header: an accepted request has its date named in the list, and the line of that date is part of the text the signature fits |
| `Replay.OneSignatureOneDate` | activitypub/signature.go:93-105 | one Signature header is accepted under one date only, so not again under a fresh one, and at no two times more than 26 h apart; all lines it covers are the same |
| `Signing.JudgeSigned` | activitypub/signature.go:75-149 | for a header made by the signer only date, digest, presence and the signature itself are left to decide |
| `Signing.TextTellsHost` | activitypub/signature.go:245-265 | two requests that differ at most in the host have the same signing string exactly if they have the same host |
| `Signing.SignedIsAccepted` | activitypub/signature.go:26-149 | a signed request is accepted, for every body, if and only if it arrives within 13 h, its two hosts do not contradict each other, and a preset digest of a request without a body is that of the empty one |
| `Signing.TextTellsAll` | activitypub/signature.go:245-265 | equal signing strings of requests without line breaks agree in method, target, host, date and digest |
| `Signing.AcceptedAsSigned` | activitypub/signature.go:75-149 | whatever is accepted under a signature made by the signer has the method, target, host and date that were signed, within 13 h, and a body of the same hash |
| `Ini.Config.Blank` | config/config.go:25-55 | exactly the sixteen fields, each with the zero of its kind |
| `Ini.Config.Defaults` | config/config.go:60-73 | the sixteen fields with the six defaults by name, the directory for CGI, and zeros otherwise |
| `Ini.Config.Save` | config/config.go:225-258 | one line for each field that is not zero, in order; an error without a path |
| `Ini.Config.SetField` | config/config.go:117-129 | a text field takes the text, a flag is true exactly for "true" and "1", a number field takes the number or keeps its value under an error that names the line and the key; no other field changes |
| `Ini.Config.TakeLine` | config/config.go:102-130 | a blank line or a comment does nothing, a line without an equals sign is an error, and otherwise the first equals sign parts key and value, both trimmed; a key no field has is passed over |
| `Ini.Config.ParseINI` | config/config.go:98-132 | reads line after line up to the first error, which it names, and keeps what was set before |
| `IniTheorems.DecimalReadsBack` | config/config.go:120-125 | every 64-bit number is read back from its decimal form |
| `IniTheorems.AtoiReads` | config/config.go:120-125 | digits behind one sign or none are read as their value if 64 bits hold it |
| `IniTheorems.AtoiRefuses` | config/config.go:120-125 | and nothing else is a number |
| `IniTheorems.TrimCuts` | config/config.go:104-113 | trimming takes white space away at both ends and nothing else |
| `IniTheorems.ChunkText` | config/config.go:245-255 | the line of each kind of field |
| `IniTheorems.TooLongExactly` | config/config.go:100-102 | a line does not fit the scanner exactly from 65536 bytes on |
| `IniTheorems.ReadCompose` | config/config.go:98-132 | what stands behind complete lines is read from the point the lines before it have got to |
| `IniTheorems.ChunkReads` | config/config.go:247-254 | the line of a field assigns the value it was printed from |
| `IniTheorems.SavedLaysOver` | config/config.go:225-258 | reading a saved file over any start gives each field its saved value or, where that was zero, what it had |
| `IniTheorems.ReadKeepsClean` | config/config.go:98-132 | reading never stores a string with white space at an end or a line end inside |
| `Ini.FieldsAreTable` | config/config.go:25-55 | the sixteen tags are distinct and survive printing |
| `IniTheorems.BlankReadsBack` | config/config.go:98-132 | over a blank configuration, what is saved reads back if and only if every string is trimmed, without a line end and short enough for the scanner |
| `IniTheorems.DefaultsReadBack` | config/config.go:60-73 | over the defaults, zero fields take their default, and the rest as before, with the exact condition for getting back what was saved |
| `Counters.Store.CreatePersona` | store/sqlite/persona.go:45-61 | a new persona counts nothing, rightly |
| `Counters.Store.Create` | store/sqlite/post.go:118-131 | a post whose uri is new, and likewise a follow (follow.go:60-70) or a follower (follow.go:172-178) whose pair is new, becomes a row; the counter of its persona and kind grows by one if it is an approved follower, a follow or a local post, and no other counter moves; right counters stay right |
| `Counters.Store.CreateBulk` | store/sqlite/follow.go:180-184 | a bulk insert leaves the counters alone |
| `Counters.Store.Delete` | store/sqlite/follow.go:227-240 | a delete by id takes that row away and lowers its counter by one if it counted; also of a missing row or one refused by a foreign key, it keeps right counters right |
| `Counters.Store.ApproveFollower` | store/sqlite/follow.go:212-225 | an approval is counted, once |
| `Counters.WhatCounts` | store/sqlite/follow.go:275-289 | what is counted: approved followers, all follows, and posts of local origin |
| `Counters.Store.UpdateFollow` | store/sqlite/follow.go:72-80 | acceptance changes no count |
| `Counters.Store.DeleteFollowerByActorURI` | store/sqlite/follow.go:244-252 | removes exactly the rows of that actor for that persona and counts again |
| `Counters.Store.DeleteReblogPost` | store/sqlite/post.go:218-228 | removes the wrapper posts and counts again whatever their origin |
| `Counters.Store.DeleteByDomain` | store/sqlite/follow.go:256-268 | whichever rows go, all personas are counted again |
| `Counters.Store.RefreshAllCounters` | store/sqlite/follow.go:304-310 | afterwards every counter is right, whatever went before |
| `Counters.RefreshRestores` | store/sqlite/follow.go:275-289 | counting again for one kind and persona is enough after a change that touches no other count |
| `CounterRaces.InvStep` | store/sqlite/follow.go:172-252 | at every moment, failed lookups and refreshes included, each counter is right, or a call in progress will refresh it, or its refresh has been lost |
| `CounterRaces.CountersSettle` | store/sqlite/follow.go:60-310 | however calls overlap: when none is in progress, every counter is right that has not lost its refresh |
| `CounterRaces.RegularCountersAgree` | store/sqlite/follow.go:60-310 | without bulk inserts, lost refreshes, failed lookups and deletes that look for an id before it exists, all counters are right |
| `CounterRaces.RefreshAllRepairs` | store/sqlite/follow.go:301-310 | RefreshAllCounters makes all counters right in the midst of other calls |
| `CounterRaces.OvertakenDeleteMiscounts` | store/sqlite/follow.go:82-94 | a run in which a delete overtaken by the insert of its row leaves a counter wrong |
| `Blocks.Relations.InboxFollow` | handler/activitypub.go:178-223 | a follow becomes a follower exactly if neither the actor nor its domain is blocked, the persona exists and the pair has no row |
| `Blocks.Relations.InboxUndoFollow` | handler/activitypub.go:270-276 | accepted also from blocked actors, and only removes |
| `Blocks.Relations.InboxAccept` | handler/activitypub.go:228-240 | confirms the follow of that actor by that persona, if any, unless it or its domain is blocked |
| `Blocks.Relations.InboxReject` | handler/activitypub.go:245-254 | removes the follow of that actor by that persona, if any, unless it or its domain is blocked |
| `Blocks.Relations.InboxBlock` | handler/activitypub.go:437-449 | removes both directions for the persona |
| `Blocks.Relations.GetFollowByTarget` | store/sqlite/follow.go:42-47 | the only row for a persona and actor, or none |
| `Blocks.Relations.FollowsCreate` | handler/api_mur_follows.go:165-206 | a follow is stored exactly if a target is named, it is not blocked and the row is new |
| `Blocks.Relations.FollowsDelete` | handler/api_mur_follows.go:212-244 | removes that row and tells whether it was there |
| `Blocks.Relations.FollowersApprove` | handler/api_mur_follows.go:334-362 | confirms a row that is there |
| `Blocks.Relations.FollowersReject` | handler/api_mur_follows.go:366-394 | removes that row and tells whether it was there |
| `Blocks.Relations.BlocksCreate` | handler/api_mur_blocks.go:52-97 | the loop over personas removes every relation with the actor, in both directions, and no other; if no other blocked actor had a relation, none has one now |
| `Blocks.Relations.BlocksDelete` | handler/api_mur_blocks.go:105-130 | lifts that block only |
| `BlockRaces.InvStep` | handler/api_mur_blocks.go:63-81 | at every moment each row of a soundly blocked actor is going to be deleted by a purge in progress, and no follow of his is under way |
| `BlockRaces.BlockSettles` | handler/api_mur_blocks.go:52-97 | however statements interleave: once its purge is over, an actor whose block nothing has gone wrong with has no relation with any persona |
| `BlockRaces.BlockedMeansUnrelated` | handler/activitypub.go:135-145 | if nothing fails and no actor is blocked while a follow of his stands between its check and its insert, every blocked actor is without relations after the purge |
| `BlockRaces.OvertakenFollowStays` | handler/activitypub.go:135-196 | that condition is needed: a run that leaves a blocked actor as a follower |
| `LoginLimiter.Limiter.GetLoginAttempt` | store/sqlite/login_attempt.go:14-35 | the count and the end of the lock, zero and none for an unknown address or when the read fails |
| `LoginLimiter.Limiter.RecordLoginFailure` | store/sqlite/login_attempt.go:39-55 | one failure more, and the lock replaced, rounded down to seconds; nothing when it fails |
| `LoginLimiter.Limiter.ClearLoginAttempts` | store/sqlite/login_attempt.go:59-65 | the record is gone unless the call fails |
| `LoginLimiter.Limiter.Login` | handler/api_mur_auth.go:31-96 | logged in exactly if the password is given and right, login is set up, no lock that could be read is running, and a wanted code is given and right; each other answer exactly under its own condition; a wrong password or code adds one to the count of the address and locks it for 300 s from the fifth on, a login clears it, and nothing else changes a record, whichever of the four store calls fail |
| `LoginLimiter.RecordOf` | handler/api_mur_auth.go:59-91 | over every run without success the record of an address is the number of its recorded rejections and, from the fifth on, a lock of 300 s behind the last unless its count could not be read |
| `LoginLimiter.RejectionsAreSpaced` | handler/api_mur_auth.go:45-70 | once five are recorded, a rejection that could read the lock comes at least 300 stored seconds after one that could set it |
| `LoginLimiter.LimitHolds` | handler/api_mur_auth.go:45-91 | without a success at most 5 + (last - fifth) / 300 attempts from an address are checked and rejected, plus three for each of them with a failing store call, whatever other addresses do at the same time |
| `LoginLimiter.LimitIsReached` | handler/api_mur_auth.go:45-91 | and a patient client reaches that number without any failing call, so it cannot be lowered |

## Left out

- Lease.LeaseSafety: a clock reading and the statement that uses it are one instant, and all processes share one clock.
- Lease.LeaseSafety: "settled within 300 s" is a hypothesis, since nothing in the program enforces it; crashes at any point are part of the model.
- Drain.QueueDrains: the number of deliveries one fan-out execution enqueues is bounded by a constant of the run, which is what a bounded follower set comes to.
- Fanout.FanoutToFollowers: terminates for finitely many follower ids; a table that grows for ever under the cursor would keep the real loop running too.
- FanoutHandlers.HandlePost: which actors a post mentions (parsing, WebFinger, the cache of actors) is an input.
- Uuid.Parse: characters stand for bytes; the error texts are not modelled, only which error it is.
- Signature.HeaderReadsBack: RSA, SHA-256, base64 and the HTTP date format are abstract functions with their laws; parsing of PEM keys and its errors are not part of the model.
- Signing.SignedIsAccepted: the "only if" half takes the signature scheme to be binding, so that no signature fits two texts; the clock of the server is an input.
- Replay.OneSignatureOneDate: takes the signature scheme to bind each signature to one text, and no line of the text to be broken; keeping the signatures already seen is nothing the program does.
- Signing.AcceptedAsSigned: rests on the same binding scheme; header values have no line breaks and methods no blanks, as HTTP has it.
- Pool.Worker.Execute: RunOnce, which runs one job in the calling goroutine without recovering from panics, is left out, and so are the domain-failure counters that process keeps.
- Ini.Config.ParseINI: text is a sequence of Unicode characters, so files that are not valid UTF-8 are not covered; the environment overlay and file access are left out.
- Counters.Store.Create: inserts fail only by their keys; other database errors are left out of this class and are the failed lookups and lost refreshes of `CounterRaces`.
- Blocks.Relations.InboxFollow: whether a domain block applies is an input; the removals for a domain block are steps that remove arbitrary rows.
- LoginLimiter.LimitHolds: the requests from the address itself come one after the other; requests from one address at the same time can all pass the check before one of them is recorded. Those from other addresses may overlap.
- HTTP delivery, WebFinger, fetching of actors and notes, media stores, CGI and process start are input and output; a delivery succeeds, fails or panics.
- The domain-failure circuit breaker appears as an arbitrary answer for each host and moment.
- The SQL engine: each statement or transaction is one atomic step on maps.
- JSON, reflection and the regex engine: datatypes, a field table and a direct scanner stand for them.
- The HTML text pipeline, the web interface, setup, translations, NodeInfo and the checks of passwords and user names.
- Stats and List of the queue, the read calls of notifications and all other listings only read rows.
