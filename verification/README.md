# Verified models of the platform's algorithms and protocols

This project models the parts of the repository that carry real algorithmic or protocol behaviour
and proves what they promise. Each module follows one component.

| module | component |
|---|---|
| `EditDistance` | the two-row Levenshtein loop, edit scripts, the metric laws |
| `FighterMatching`, `DuplicateClusters` | name, date and fighter similarity; first-fit clustering |
| `IdentityGraphs` | the two-way identity index under add, merge and unmerge |
| `RedisLocks`, `LockProtocol` | the Redis lock object, and timer-driven job runs in many processes over it |
| `JobQueue`, `QueueRuns`, `QueueOrder`, `JobScheduler` | the array heap of jobs; cancelling and whole runs; the order of later gets; executions, triggers, locks, dead letters and replay |
| `TokenRefresh` | single-flight token refresh of the mobile client |
| `TokenBucket`, `CircuitBreaker`, `SlidingWindow` | the connector rate limiter and circuit breaker, the API rate limiter |
| `Ndcg`, `Precision` | NDCG; average precision |
| `RatingRules`, `Rankings` | Elo and Glicko updates; whole rebuilds |
| `Odds`, `Rounding` | American odds, the nearest simple fraction, Python's `round` |
| `Autocomplete` | the prefix index against a scan of the list |
| `Sessions` | refresh-token rotation with reuse detection |
| `Wrappers`, `Positions` | `Option` and `Result`; increasing lists of positions |

Where the source updates state step by step, the model is a class or a loop whose contract ties it
to a function on values; the theorems are about that function, over every run. Where coroutines or
processes interleave, the model is a state machine with one event per uninterrupted stretch of code.

`dafny verify dfyconfig.toml` checks the project.

## What the code does that its documentation does not say

- **Date proximity.** The docstring gives 0 beyond one year; the code gives 0.4986 at 366 days and
  reaches 0 at 730 days (`ProximityLaws`).
- **Merge reversal.** `reverse_merge` passes a match without a canonical id, so it moves nothing
  unless source ids listed under the empty id match (`ReverseMergeMovesNothingIff`), and undoes only a
  merge that moved nothing (`ReverseMergeUndoesIff`); on the graph itself, unmerging undoes merging
  exactly under `Separable` (`UnmergeUndoesMergeIff`).
- **Cancel.** Filtering the heap array leaves a heap, for all heaps in which the same positions stay,
  exactly when each of these positions lands below one of its own ancestors (`CancelKeepsHeapIff`);
  from any array every later `get` is right, whatever is put and taken, exactly when the array is a heap
  (`InOrderIffHeap`), so the same condition decides the order of all later gets
  (`SparedIffLaterGetsRight`); sparing the front is enough for the next one only (`NextGetRightIff`,
  `SparedFrontGoesWrong`).
- **Interval jobs and replay** enqueue without the lock: keys stay without a second entry exactly when no
  entry has the key, and all locked exactly when it is locked all the same (`IntervalKeepsOnePerKeyIff`,
  `ReplayKeepsOnePerKeyIff`), and runs bring two entries under one key (`IntervalSharesKey`,
  `ReplaySharesKey`); replay loses a dead letter exactly when its job is gone
  (`ReplayLosesIffUnregistered`).
- **Token bucket.** The time slept is credited twice, so the rate is bounded by twice the configured
  one, and that bound is attained (`GrantsBounded`, `ReturnsBounded`, `BoundAttained`,
  `ReturnBoundAttained`).
- **Circuit breaker.** A failed half-open probe reopens the circuit in every run, however fetches
  overlap, exactly for thresholds of at most one (`ProbeAlwaysReopensIff`).
- **Lock safety** rests on the in-process guard: without it a second run overwrites the shared token
  and exclusion fails (`UnguardedRunBreaksExclusion`). The lock's comment says runs go on without
  Redis; with no Redis configured, acquiring fails and the run is skipped.
- **NDCG** stays at most 1, whatever is relevant, exactly when a cutoff that is not negative keeps no
  item twice and a negative one keeps at most one item (`NdcgAtMostOneIff`); average precision exactly
  when no item is recommended twice (`AveragePrecisionAtMostOneIff`).
- **Rankings.** A fight without a winner counts as won by the fighter listed second; given the winner, the
  order of listing makes no difference (`MirroredFightSame`).
- **Odds.** A probability that the margin moves to 0 or 1 divides by zero; one moved below 0 fails on
  an unset variable; one above 1 gets positive odds that mean less than an even chance.
- **Rate limiter.** The bound holds for half-open windows of the full length; windows closed at both
  ends respect it exactly when they are shorter (`ClosedBoundIffShorter`); a limit of
  zero or less raises `IndexError`; the `Retry-After` header is cut down to whole seconds and is
  enough exactly when nothing was cut off (`HeaderHonestIff`).
- **Autocomplete** files an entity under the lowercased prefixes of its title, each entity once exactly
  where different prefixes lowercase to different texts (`FiledOnceIff`); with `str.lower` they do, since
  a longer prefix has a longer lowercase text. It then finds the titles that start with a text exactly
  when the two tests agree on each title (`FindsByStartIff`); where the lengths of the titles are kept,
  that holds of all texts of two or more characters whose length is kept exactly when the titles'
  prefixes are kept too (`AlwaysFindsByStartIff`).
- **Lock extension** reads the key and resets its term in two commands; it is safe exactly when the term
  is reset before the key expires (`ExtensionSafeIffInTerm`, `LateExtensionHelpsOther`).
- **Lock keys** of the in-process scheduler join two fields by a colon, so different pairs of fields can
  share a key; the model's keys are these strings.
- **Sessions.** Hashes are not unique in the table; reuse of a revoked token is caught exactly when no
  other session of the user has its hash (`RevokedIsCaughtIff`).

## Model

| member | source | states |
|---|---|---|
| EditDistance.Levenshtein | data_platform/identity/__init__.py:24-40 | the two-row loop, with its length swap, returns the least cost of any edit script from one string to the other |
| EditDistance.NextRow | data_platform/identity/__init__.py:32-39 | one pass of the inner loop turns row i of the table of prefix distances into row i + 1 |
| EditDistance.DistanceIsLeastCost | data_platform/identity/__init__.py:24-40 | the recurrence behind the table is attained by some edit script and beaten by none |
| EditDistance.LeastCostIsDistance | data_platform/identity/__init__.py:24-40 | whatever is the least script cost is the value of the recurrence, so the specification leaves no choice |
| EditDistance.BestScript | data_platform/identity/__init__.py:24-40 | a script that realises the distance exists for every pair of strings |
| EditDistance.NoCheaperScript | data_platform/identity/__init__.py:24-40 | every script costs at least the distance between its ends |
| EditDistance.Symmetric | data_platform/identity/__init__.py:26-27 | the distance is symmetric, so swapping the strings by length is harmless |
| EditDistance.ZeroIffEqual | data_platform/identity/__init__.py:24-40 | the distance is zero exactly for equal strings |
| EditDistance.TriangleInequality | data_platform/identity/__init__.py:24-40 | the distance satisfies the triangle inequality, by composing scripts |
| EditDistance.Compose | data_platform/identity/__init__.py:24-40 | two scripts run one after the other are one script that costs no more than both |
| EditDistance.Reverse | data_platform/identity/__init__.py:24-40 | every script can be undone at the same cost |
| EditDistance.DistanceBounds | data_platform/identity/__init__.py:24-55 | the distance lies between the length difference and the longer length |
| FighterMatching.NameSimilarityLaws | data_platform/identity/__init__.py:43-55 | similarity is symmetric and in [0,1]; it is 1 exactly for names with equal cleaned text, 0 exactly for a missing name or texts as far apart as they can be |
| FighterMatching.NameSimilarityIsShare | data_platform/identity/__init__.py:43-55 | for two names it is the share of the longer cleaned text that need not be edited |
| FighterMatching.ProximityLaws | data_platform/identity/__init__.py:67-76 | proximity never grows with the gap, is in [0,1], 1 only for the same day and 0 exactly from 730 days |
| FighterMatching.DateProximityLaws | data_platform/identity/__init__.py:58-78 | date proximity is symmetric, in [0,1], and 0 for a text that is not a date |
| FighterMatching.DateProximityByDays | data_platform/identity/__init__.py:58-77 | for two dates it is the proximity of the days between them |
| FighterMatching.ProximitySteps | data_platform/identity/__init__.py:58-77 | at least 0.9, 0.7 and 0.5 exactly up to 7, 30 and 365 days, and linear from there to two years |
| FighterMatching.ConfidenceIsFraction | data_platform/identity/__init__.py:270-287 | the rounded weighted average of field scores is in [0,1] for any fields in use |
| FighterMatching.CompareLaws | data_platform/identity/__init__.py:207-289 | confidence is symmetric in the two records and in [0,1] |
| FighterMatching.CompareIsWeightedMean | data_platform/identity/__init__.py:183-287 | the confidence is within 0.00005 of the mean of the scores of the fields that both records have, with the eight weights of the source; 0 if they have none in common |
| FighterMatching.FieldsInUse | data_platform/identity/__init__.py:213-272 | which fields both records have, and which name is compared |
| FighterMatching.FieldScores | data_platform/identity/__init__.py:216-259 | nationalities and weight classes score 1 or 0 by their lowercase, heights and reaches 1 within 5 and 8 cm and otherwise a half, names and dates their similarity |
| FighterMatching.DifferentNeverFull | data_platform/identity/__init__.py:229-287 | records with different nationalities or weight classes never match fully |
| FighterMatching.SelfMatchIff | data_platform/identity/__init__.py:207-289 | a record matches itself with confidence 1 exactly when some compared field is filled and a birth date, if given, is a date |
| DuplicateClusters.GrowCluster | data_platform/resolution/__init__.py:173-186 | the inner loop collects into one cluster every free record that matches its first, and leaves none |
| DuplicateClusters.ClusterAll | data_platform/resolution/__init__.py:170-190 | the outer loop yields a partition in which members match their cluster's first record and no later record matches an earlier first |
| DuplicateClusters.FindDuplicateClusters | data_platform/resolution/__init__.py:167-190 | the returned record lists are that partition of the entities, in list order |
| DuplicateClusters.LeadersApart | data_platform/resolution/__init__.py:167-190 | first records of two clusters fall below the threshold whichever is compared to the other |
| DuplicateClusters.ClusteringUnique | data_platform/resolution/__init__.py:167-190 | only one clustering meets the specification |
| IdentityGraphs.ResolveIsListed | data_platform/identity/__init__.py:113-160 | after any sequence of adds, merges and unmerges of distinct ids, every answer of resolve lists the source id asked about |
| IdentityGraphs.UnmergeAnswersIff | data_platform/identity/__init__.py:146-160 | an unmerge keeps that exactly when the ids differ or nothing is selected |
| IdentityGraphs.AddInverseIff | data_platform/identity/__init__.py:113-116 | an add keeps the two maps inverse exactly when it does not re-point a source id |
| IdentityGraphs.MergeInverse | data_platform/identity/__init__.py:126-144 | a merge keeps the two maps inverse |
| IdentityGraphs.UnmergeInverse | data_platform/identity/__init__.py:146-160 | an unmerge of distinct ids keeps the two maps inverse |
| IdentityGraphs.SelectedIff | data_platform/identity/__init__.py:140-160 | an unmerge moves back exactly the ids that contain the entity's id or are contained in it |
| IdentityGraphs.MapsStayInverse | data_platform/identity/__init__.py:113-160 | over every run without re-pointing the two maps stay inverse |
| IdentityGraphs.InverseListsOnce | data_platform/identity/__init__.py:99-116 | inverse maps give disjoint source sets |
| IdentityGraphs.MergeThenUnmerge | data_platform/identity/__init__.py:126-160 | what a merge followed by its unmerge leaves, for every graph |
| IdentityGraphs.UnmergeUndoesMergeIff | data_platform/identity/__init__.py:126-160 | it restores the graph exactly when both entities are known and disjoint and the id test selects just the absorbed sources |
| IdentityGraphs.ReverseMergeMovesNothingIff | data_platform/resolution/__init__.py:220-233 | reversing through an empty canonical id leaves every set of sources exactly when no id listed under the empty id matches, and then every answer |
| IdentityGraphs.ReverseMergeUndoesIff | data_platform/resolution/__init__.py:220-233 | on any graph it undoes a merge into a nonempty id exactly when both entities were known, the absorbed one had no sources, and no id under the empty id matches; into the empty id, exactly under the unmerge condition |
| IdentityGraphs.IdentityGraph.AddSourceId | data_platform/identity/__init__.py:113-116 | adds to the set and re-points the source, leaving an old set as it was |
| IdentityGraphs.IdentityGraph.Resolve | data_platform/identity/__init__.py:118-120 | answers the canonical id on record, if any |
| IdentityGraphs.IdentityGraph.MergeInto | data_platform/identity/__init__.py:126-144 | absorbs one source set into the other, re-points its sources, marks and records the match |
| IdentityGraphs.IdentityGraph.UnmergeMatch | data_platform/identity/__init__.py:146-160 | moves the selected sources back and clears the mark |
| RedisLocks.RedisLock.Acquire | backend/src/scheduler/locks.py:42-78 | on success with Redis up the key carries the new token for a full term, on failure another holder's key was live at the deadline; without Redis it fails, with Redis down at any try it succeeds; the token changes either way |
| RedisLocks.RedisLock.Release | backend/src/scheduler/locks.py:80-105 | removes the key exactly when it is live with this object's token, changes no other key, and forgets the token |
| RedisLocks.RedisLock.Extend | backend/src/scheduler/locks.py:107-121 | succeeds exactly when the key carried this token at the read and Redis was up at both commands, and then resets the term of whatever key is there |
| RedisLocks.UnexpiredKeyStays | backend/src/scheduler/locks.py:56-99 | until it expires a key survives every sequence of set-if-absent and compare-and-delete commands with other tokens |
| RedisLocks.ExtensionSafeIffInTerm | backend/src/scheduler/locks.py:107-116 | the caller holds its key after an extension, whatever such commands ran in between, exactly when the term is reset before the key expires |
| RedisLocks.LateExtensionHelpsOther | backend/src/scheduler/locks.py:107-116 | after that, the key of a client that took over is the one prolonged |
| RedisLocks.ExpiredKeyIsTaken | backend/src/scheduler/locks.py:56-68 | an expired key goes to the next taker, and the old holder's compare-and-delete leaves it alone |
| RedisLocks.LockManager.Get | backend/src/scheduler/locks.py:161-164 | one lock object per job name, made on first use with the term asked for then |
| LockProtocol.StepKeepsInv | backend/src/scheduler/manager.py:144-172 | every step of any process, Redis command, crash or passing of time keeps the protocol invariant, and that what is marked as running is run by an active task |
| LockProtocol.RunKeepsInv | backend/src/scheduler/manager.py:144-172 | so every guarded run keeps it |
| LockProtocol.MutualExclusion | backend/src/scheduler/manager.py:144-172 | in every reachable state at most one task, over all processes, is inside a run of a job whose term has not passed |
| LockProtocol.ReleaseSparesOthers | backend/src/scheduler/locks.py:80-105 | a release, however late and even from a crashed process, removes only the key it set and leaves every other run its key |
| LockProtocol.ReleaseInTermFreesLock | backend/src/scheduler/locks.py:80-105 | a release within the term frees the key at once |
| LockProtocol.LockFreedAfterTerm | backend/src/scheduler/locks.py:42-78 | whatever crashed, the key is free once one term has passed |
| LockProtocol.EntersIff | backend/src/scheduler/manager.py:148-172 | in every guarded run a task that enters passes the guard exactly when no active task of its process runs the job; otherwise nothing changes |
| LockProtocol.FreeJobStarts | backend/src/scheduler/manager.py:148-172 | whenever the lock is free and no task of the live process runs the job, a task that enters runs it for a full term |
| LockProtocol.EndedJobCanRunAgain | backend/src/scheduler/manager.py:148-172 | a run that ends in its term leaves the lock free, the token forgotten, the guard open and the task ready to enter again |
| LockProtocol.CrashedStaysDown | backend/src/scheduler/manager.py:148-172 | over any run after a crash the process runs nothing and no task of it enters |
| LockProtocol.UnguardedRunBreaksExclusion | backend/src/scheduler/locks.py:161-164 | without the in-process guard a reachable state has two tasks inside unexpired runs of one job |
| JobQueue.SiftUpRestores | data_platform/scheduler/__init__.py:111-114 | sifting up repairs a heap with one entry out of place |
| JobQueue.SiftDownRestores | data_platform/scheduler/__init__.py:116-119 | sifting down to a leaf and up again repairs a heap whose root was replaced |
| JobQueue.PushKeepsHeap | data_platform/scheduler/__init__.py:111-114 | a push keeps the array a heap |
| JobQueue.PopKeepsHeap | data_platform/scheduler/__init__.py:116-119 | a pop keeps the array a heap |
| JobQueue.PopKeepsEntries | data_platform/scheduler/__init__.py:116-119 | a pop removes exactly the root, even from an array that is not a heap |
| JobQueue.RootIsLeast | data_platform/scheduler/__init__.py:121-124 | no entry of a heap precedes its root |
| JobQueue.LeastIsFirst | data_platform/scheduler/__init__.py:116-124 | the root is the first entry of the sorted sequence with the same entries |
| JobQueue.PriorityJobQueue.Put | data_platform/scheduler/__init__.py:111-114 | pushes onto the array, and inserts into the sorted sequence behind everything as urgent, under the next number |
| JobQueue.PriorityJobQueue.Get | data_platform/scheduler/__init__.py:116-119 | pops the front of the array, which is the first of the sorted sequence while the array is a heap |
| JobQueue.PriorityJobQueue.Peek | data_platform/scheduler/__init__.py:121-124 | shows the same job without taking it |
| JobQueue.PriorityJobQueue.Cancel | data_platform/scheduler/__init__.py:260-265 | drops exactly the entries of one job from the array as it stands |
| JobQueue.OthersCounts | data_platform/scheduler/__init__.py:260-265 | the entries kept and the entries dropped are together the entries there were, once each |
| QueueRuns.SparedStaysHeap | data_platform/scheduler/__init__.py:260-265 | a cancel whose survivors land below their own ancestors leaves a heap |
| QueueRuns.TiltedFalls | data_platform/scheduler/__init__.py:260-265 | if a survivor is not below another, some heap built by puts puts the first ahead of the second |
| QueueRuns.NextGetRightIff | data_platform/scheduler/__init__.py:260-265 | after a cancel the next job taken is the most urgent, for all heaps with these survivors, exactly when the first survivor is an ancestor of all others; so always when the front stays |
| QueueRuns.CancelKeepsHeapIff | data_platform/scheduler/__init__.py:260-265 | a cancel leaves a heap, for all heaps with these survivors, exactly when each survivor lands below one of its own ancestors |
| QueueOrder.InOrderIffHeap | data_platform/scheduler/__init__.py:104-124 | from any array, every later get takes the most urgent entry, whatever is put and taken, exactly when the array is a heap |
| QueueOrder.RunInOrderIffHeap | data_platform/scheduler/__init__.py:104-124 | the same after every run of puts, gets and cancels, for all its continuations |
| QueueOrder.FrontGoesWrong | data_platform/scheduler/__init__.py:116-119 | while an entry precedes its parent the gets cannot all be right: before the urgent entries run out a wrong one is at the front |
| QueueOrder.SiftDownKeepsWrong | data_platform/scheduler/__init__.py:116-119 | sifting a less urgent entry down leaves some entry ahead of its parent, if one was |
| QueueOrder.HeapIsReached | data_platform/scheduler/__init__.py:111-114 | every heap numbered in array order is built by a run of puts |
| QueueOrder.SparedIffLaterGetsRight | data_platform/scheduler/__init__.py:260-265 | after a cancel every later get is right, for all runs that leave a heap with these survivors, exactly when each survivor lands below one of its own ancestors |
| QueueOrder.SparedFrontGoesWrong | data_platform/scheduler/__init__.py:260-265 | a run that cancels an entry behind the front and then takes the one of priority 3 while that of priority 2 is queued |
| QueueRuns.RunConserves | data_platform/scheduler/__init__.py:104-265 | over every run of puts, gets and cancels every entry put is queued, taken or cancelled, once |
| QueueRuns.QueueRunIsFair | data_platform/scheduler/__init__.py:104-265 | over every run whose cancels spare the heap, none is taken before an earlier entry at least as urgent that was not cancelled |
| QueueRuns.GetTakesFirst | data_platform/scheduler/__init__.py:116-119 | there each get takes the first of the sorted sequence |
| QueueRuns.Drive | data_platform/scheduler/__init__.py:104-265 | the class returns exactly the jobs that the log of the run says were taken, for every sequence of operations |
| JobScheduler.ExecuteJob | data_platform/scheduler/__init__.py:293-349 | completes at the first fetch that succeeds, or is a dead letter after max_retries + 1 failures, or fails for an unknown connector; with the backoff slept; no result for negative limits |
| JobScheduler.ExecutionUnique | data_platform/scheduler/__init__.py:293-349 | the fetches determine the outcome |
| JobScheduler.BackoffSum | data_platform/scheduler/__init__.py:336-337 | the delays before n retries add up to base * (2^n - 1) |
| JobScheduler.RunConserves | data_platform/scheduler/__init__.py:234-402 | over every run with any number of workers, the entries put are those on the heap array, executing, ended and cancelled, as multisets; and the dead letters made are those waiting, replayed, dropped and purged |
| JobScheduler.ReplayLosesIffUnregistered | data_platform/scheduler/__init__.py:388-396 | replaying consumes the dead letter, and puts exactly one entry of its job on the queue if that is registered, none otherwise |
| JobScheduler.OneEntryPerKeyIffInTime | data_platform/scheduler/__init__.py:234-250 | in runs where only triggers enqueue, each key has at most one entry under a live lock all along exactly when every entry ends within timeout + 60 s |
| JobScheduler.IntervalKeepsOnePerKeyIff | data_platform/scheduler/__init__.py:208-216 | an interval timer that enqueues leaves no two entries with one key exactly when no entry has its key, and all keys locked exactly when its key is locked all the same |
| JobScheduler.IntervalSharesKey | data_platform/scheduler/__init__.py:208-216 | for every enabled job, a run in which a timer fires after a trigger leaves two entries with one key |
| JobScheduler.ReplayKeepsOnePerKeyIff | data_platform/scheduler/__init__.py:388-396 | the same for a replayed dead letter whose job is registered |
| JobScheduler.ReplaySharesKey | data_platform/scheduler/__init__.py:388-396 | for every enabled job, a run in which its dead letter is replayed after another trigger leaves two entries with one key |
| JobScheduler.TriggerKeepsOnePerKeyIff | data_platform/scheduler/__init__.py:234-250 | a granted trigger always keeps the keys of the entries distinct, and all locked exactly for timeouts above -60 s |
| JobScheduler.TriggerPutsIff | data_platform/scheduler/__init__.py:234-250 | a trigger puts exactly one entry if the job is registered and enabled and its key free, and changes nothing otherwise |
| JobScheduler.EndedCanBeTriggered | data_platform/scheduler/__init__.py:281-347 | however a job ended, an enabled job with its key can be triggered again at once, and one entry is put |
| JobScheduler.FinishFrees | data_platform/scheduler/__init__.py:345-347 | with any status the end of a job frees its key and no other |
| JobScheduler.RegisteredTriggers | data_platform/scheduler/__init__.py:196-250 | a trigger puts the job registered last under the id |
| JobScheduler.EnabledTriggers | data_platform/scheduler/__init__.py:196-250 | a job enabled again can be triggered |
| JobScheduler.DisabledDoesNotTrigger | data_platform/scheduler/__init__.py:196-250 | a disabled or unregistered one cannot |
| JobScheduler.LockTermIs | data_platform/scheduler/__init__.py:234-250 | the lock of a trigger lasts for the timeout of the job and 60 seconds |
| JobScheduler.WorkerGoesOn | data_platform/scheduler/__init__.py:269-291 | a worker whose job came back with a result takes the front of the queue next |
| JobScheduler.WorkerStops | data_platform/scheduler/__init__.py:269-291 | one whose job gave no result takes nothing any more |
| JobScheduler.DistributedLock.Acquire | data_platform/scheduler/__init__.py:146-153 | takes the key unless it is held and unexpired |
| JobScheduler.DistributedLock.Release | data_platform/scheduler/__init__.py:155-159 | frees the key |
| JobScheduler.Scheduler.RunTrigger | data_platform/scheduler/__init__.py:234-250 | the trigger step of the run model on the real queue and locks, with its unknown, disabled and locked cases and the priority asked for |
| JobScheduler.Scheduler.RunInterval | data_platform/scheduler/__init__.py:208-216 | the interval step: an enabled job is queued without a lock |
| JobScheduler.Scheduler.CancelJob | data_platform/scheduler/__init__.py:260-265 | the cancel step: the queue's array is filtered, executing jobs and locks stay |
| JobScheduler.Scheduler.StartJob | data_platform/scheduler/__init__.py:269-279 | the take step: an idle worker pops the front of the array |
| JobScheduler.Scheduler.EndJob | data_platform/scheduler/__init__.py:281-347 | the finish step with the outcome of the execution itself: a dead letter is kept, and for every outcome the key is free afterwards |
| JobScheduler.Scheduler.ReplayDeadLetter | data_platform/scheduler/__init__.py:388-396 | the replay step: the first dead letter of the run is removed and its job queued at normal priority if registered |
| JobScheduler.Scheduler.PurgeDeadLetters | data_platform/scheduler/__init__.py:398-401 | the purge step, with the number purged |
| TokenRefresh.StepKeepsInv | mobile/services/api.ts:44-91 | every callback keeps: the queue matches the parked requests, one leader while refreshing, promises each settled or waiting once |
| TokenRefresh.SingleFlight | mobile/services/api.ts:49-82 | in every run at most one refresh is under way, requests are parked only then, and refreshes never outnumber requests |
| TokenRefresh.PromisesSettleOnce | mobile/services/api.ts:36-57 | in every run the promises settled are the first ones made, each once and in order |
| TokenRefresh.StepDecreases | mobile/services/api.ts:44-91 | every callback lowers the termination measure |
| TokenRefresh.EveryRunEnds | mobile/services/api.ts:44-91 | n requests take at most 2n(3n + 1) + 3n callbacks, whatever the server answers |
| TokenRefresh.StuckMeansSettled | mobile/services/api.ts:44-91 | a run can stop only when every request is resolved or rejected and every promise settled |
| TokenRefresh.RequestsFollowFate | mobile/services/api.ts:46-84 | in every run each callback moves each request as the phases alone say, without queue, promises and marks: a refresh that goes well resumes every parked request and sends its leader again, one that fails rejects them all |
| TokenRefresh.RejectedIff | mobile/services/api.ts:50-84 | in every run a request is rejected exactly by a failure that is not a 401, by one after a refresh it led, by one that finds neither a refresh under way nor a token, or by a failed refresh that it led or waited for |
| TokenRefresh.ResolvedIff | mobile/services/api.ts:46-47 | in every run a request is resolved exactly when the server answered it |
| TokenRefresh.RecoverableRunRejectsNone | mobile/services/api.ts:50-75 | if every failure is a 401 with a refresh token, no refresh fails and no request fails twice, no request is ever rejected, and a run that stops has resolved all |
| TokenRefresh.RefreshesAreCounted | mobile/services/api.ts:60-70 | in every run the refresh calls made are those that came back and the one under way |
| TokenRefresh.ApiClient.ProcessQueue | mobile/services/api.ts:36-42 | settles every waiting promise in order, moves its request on, and empties the queue |
| TokenRefresh.ApiClient.OnError | mobile/services/api.ts:46-68 | the error callback is the failure step of the run model |
| TokenRefresh.ApiClient.OnRefreshed | mobile/services/api.ts:66-82 | the end of the refresh is the success or failure step of the run model, in which the parked requests go on or are rejected |
| TokenBucket.Limiter.Acquire | data_platform/connectors/__init__.py:311-321 | the new bucket and the time at which the call returns |
| TokenBucket.WaitsForMissingPart | data_platform/connectors/__init__.py:311-321 | a call that finds a token returns at once; one that finds part of one returns, but for the overrun, when just the missing part has flowed |
| TokenBucket.FindsWhatFlowed | data_platform/connectors/__init__.py:311-321 | a call finds what was left and what flowed since, up to a full bucket |
| TokenBucket.TokensInRange | data_platform/connectors/__init__.py:311-321 | in every run of calls that do not overlap, which a blocking sleep ensures, the tokens stay between 0 and burst |
| TokenBucket.GrantsBounded | data_platform/connectors/__init__.py:311-321 | from the making of any call to the return of any later one, at most burst + 2 * rate * span calls are served |
| TokenBucket.ReturnsBounded | data_platform/connectors/__init__.py:311-321 | in any span of time at all, at most burst + 1 + 2 * rate * span calls return |
| TokenBucket.ReturnBoundAttained | data_platform/connectors/__init__.py:311-321 | for every burst of one or more and every number of ticks a legal run attains that bound, by one sleep that overruns |
| TokenBucket.BusySequential | data_platform/connectors/__init__.py:311-321 | a caller that always calls again when served makes a legal run |
| TokenBucket.BoundAttained | data_platform/connectors/__init__.py:311-321 | that run attains the factor of two, for every number of ticks |
| CircuitBreaker.RunCountsAndRests | data_platform/connectors/__init__.py:181-202 | in every run with overlapping fetches, requests_total = success + failed + in flight, and a circuit that is not open last opened at least the reset time ago |
| CircuitBreaker.NoEarlyFetch | data_platform/connectors/__init__.py:272-278 | no fetch starts sooner than the reset time after the circuit last opened |
| CircuitBreaker.ClosedBelowIffPositive | data_platform/connectors/__init__.py:280-297 | closed implies fewer consecutive failures than the threshold, in all runs, exactly for thresholds of 1 or more |
| CircuitBreaker.CountsFailuresInARow | data_platform/connectors/__init__.py:280-297 | in every run the count is the number of failures since the last success, of those that end a fetch in flight |
| CircuitBreaker.CircuitIsHistory | data_platform/connectors/__init__.py:181-202 | in every run the circuit is open exactly if no fetch was sent since a failure brought that number to the threshold, closed exactly if after every such failure a fetch was sent and then one succeeded |
| CircuitBreaker.OpenSinceLastTrip | data_platform/connectors/__init__.py:291-297 | the time kept is that of the last such failure |
| CircuitBreaker.SentIff | data_platform/connectors/__init__.py:272-278 | in every run a fetch is sent exactly when the circuit is not open or the reset time has passed since the last such failure |
| CircuitBreaker.UntrippedSends | data_platform/connectors/__init__.py:272-278 | before any such failure every fetch is sent |
| CircuitBreaker.ProbeAlwaysReopensIff | data_platform/connectors/__init__.py:280-297 | for every configuration, a failed half-open probe reopens the circuit in all reachable states, with any overlap of fetches, exactly for thresholds of at most one |
| CircuitBreaker.SequentialProbeDecides | data_platform/connectors/__init__.py:280-297 | when fetches run one at a time, a failed probe always reopens and a successful one closes |
| CircuitBreaker.OverlappingProbe | data_platform/connectors/__init__.py:280-297 | for every threshold of two or more, a run reaches a half-open circuit that a failed probe leaves half-open |
| CircuitBreaker.Connector.StartFetch | data_platform/connectors/__init__.py:181-188 | the start of a fetch is the fetch step of the run model, refused or sent |
| CircuitBreaker.Connector.EndFetch | data_platform/connectors/__init__.py:280-297 | its end is the success or failure step, with the count of consecutive failures |
| SlidingWindow.RateLimiter.Trim | backend/src/middleware/rate_limit.py:29-31 | keeps, in order, exactly the times after the cutoff |
| SlidingWindow.RateLimiter.Dispatch | backend/src/middleware/rate_limit.py:25-42 | the answer and the client's new log; no other client's log changes |
| SlidingWindow.AcceptsIffRoom | backend/src/middleware/rate_limit.py:25-42 | in every run a request is accepted exactly when fewer than max_requests of the client's accepted requests lie in the window ending with it; IndexError exactly for limits below 1 |
| SlidingWindow.WindowBound | backend/src/middleware/rate_limit.py:25-42 | every half-open window of that length, wherever it starts, holds at most max_requests accepted requests of a client |
| SlidingWindow.ClosedBoundIffShorter | backend/src/middleware/rate_limit.py:29-33 | for a positive limit, closed windows of a given length respect it in all runs exactly when they are shorter than the limiter's window |
| SlidingWindow.RetryAcceptedIff | backend/src/middleware/rate_limit.py:33-39 | after a rejection the next request is accepted exactly when the oldest logged one has left the window |
| SlidingWindow.HeaderHonestIff | backend/src/middleware/rate_limit.py:33-39 | waiting as long as the header says is enough exactly when no fraction was cut off; one second more always is |
| Ndcg.RankingGainsMost | recommendation/evaluation/metrics.py:41-42 | no n distinct items gain more than the first n of the ranking by relevance |
| Ndcg.LeadSurvivesDiscount | recommendation/evaluation/metrics.py:38-42 | a lead in cumulated gain at every position survives any positive decreasing discount |
| Ndcg.RankingWins | recommendation/evaluation/metrics.py:36-43 | the ideal list cut anywhere beats every list of distinct items that is no longer, and uncut beats all |
| Ndcg.NdcgInUnitInterval | recommendation/evaluation/metrics.py:36-43 | for distinct recommendations within the cut and non-negative relevances the metric is in [0,1] for every cutoff that is fair, hence for all k not negative |
| Ndcg.NdcgAtMostOneIff | recommendation/evaluation/metrics.py:36-43 | for given recommendations and cutoff it is at most 1, whatever is relevant, exactly when a cutoff that is not negative keeps no repeat and a negative one at most one item |
| Ndcg.UnfairCutExceedsOne | recommendation/evaluation/metrics.py:38-41 | for every other combination of sizes and cutoff some inputs score above 1 |
| Ndcg.PerfectScoreIff | recommendation/evaluation/metrics.py:36-43 | for a strictly decreasing discount the metric is 1 exactly when the cut recommendation has the ranking's relevances, position by position |
| Ndcg.RankingExists | recommendation/evaluation/metrics.py:41 | every table of relevances has a ranking |
| Ndcg.RankingChoiceIrrelevant | recommendation/evaluation/metrics.py:41-43 | how ties are ranked does not change the metric |
| Ndcg.NdcgAtK | recommendation/evaluation/metrics.py:36-43 | the two accumulations compute the metric |
| Ndcg.CutKeeps | recommendation/evaluation/metrics.py:38 | a cut keeps the first k; a negative k leaves off as many from the end |
| Ndcg.NdcgIsShareOfBest | recommendation/evaluation/metrics.py:36-43 | the metric times the ideal discounted gain is the discounted gain of the recommendation, and 0 if there is nothing to gain |
| Ndcg.IdealIsBest | recommendation/evaluation/metrics.py:41-42 | no list of as many distinct items gains more than the ideal one |
| Ndcg.NdcgZeroIff | recommendation/evaluation/metrics.py:36-43 | the metric is 0 exactly when nothing within the cut is relevant, in the recommendation or at all |
| Ndcg.NdcgOfOne | recommendation/evaluation/metrics.py:36-43 | with one relevant item it is the discount of its place over that of the first |
| Ndcg.DcgAdds | recommendation/evaluation/metrics.py:37-40 | discounted gain is linear in the relevances |
| Precision.AveragePrecision | recommendation/evaluation/metrics.py:20-28 | the loop computes the sum of the precisions at the hits over the number of relevant items |
| Precision.AveragePrecisionIs | recommendation/evaluation/metrics.py:20-28 | it is the sum, over the positions of the hits, of the j-th hit over the items down to it, divided by the number of relevant items |
| Precision.AveragePrecisionLaws | recommendation/evaluation/metrics.py:20-28 | for distinct recommendations it is in [0,1], and 1 exactly when all relevant items come first |
| Precision.AveragePrecisionAtMostOneIff | recommendation/evaluation/metrics.py:20-28 | it is at most 1 for all sets of relevant items exactly when no item is recommended twice |
| RatingRules.EloUpdateLaws | intelligence/rankings_engine/elo.py:31-59 | the winner gains and the loser loses; the total is unchanged exactly for equal K-factors and otherwise moves by less than 1.25 times their difference |
| RatingRules.EloDecision | intelligence/rankings_engine/elo.py:31-59 | on a decision each side moves by its K-factor times what the result differs from what was expected |
| RatingRules.EloFinish | intelligence/rankings_engine/elo.py:53-57 | a finish moves both sides by a quarter more |
| RatingRules.KFactorSteps | intelligence/rankings_engine/elo.py:23-28 | 64 exactly below five fights, 48 exactly for title fights of others, 32 otherwise |
| RatingRules.GlickoLaws | intelligence/rankings_engine/glicko.py:22-40 | the deviation stays at least 60 and never grows; the winner's rating rises, the loser's falls |
| RatingRules.GlickoUpdateIs | intelligence/rankings_engine/glicko.py:22-40 | above the floor a fight adds q^2 g^2 e (1 - e) to the precision, and moves the rating by the new variance times q g times what the result differs from what was expected |
| RatingRules.StandardRulesLawful | intelligence/pipeline/rebuild_rankings.py:41-50 | the two updates, as the rebuild applies them, obey these laws for all arguments |
| Rankings.FoughtKeepsRange | intelligence/pipeline/rebuild_rankings.py:27-52 | a fight keeps every deviation in [60,350] and moves only its two fighters |
| Rankings.WinnerGains | intelligence/pipeline/rebuild_rankings.py:41-52 | in a fight between two known fighters the winner gains and the loser loses on both scales |
| Rankings.MirroredFightSame | intelligence/pipeline/rebuild_rankings.py:27-52 | given the winner, which fighter is listed first makes no difference: both are rated from the ratings before the fight |
| Rankings.StandardRulesSymmetric | intelligence/pipeline/rebuild_rankings.py:41-50 | the rules of the source allow this when the win probabilities of both sides add up to one |
| Rankings.DecisionMovesByOwnFactor | intelligence/pipeline/rebuild_rankings.py:30-45 | each fighter moves by the K-factor of the own career total |
| Rankings.FightMovesTotal | intelligence/pipeline/rebuild_rankings.py:27-45 | a counted fight leaves total Elo alone exactly when its fighters are distinct with equal K-factors |
| Rankings.RebuildTotal | intelligence/pipeline/rebuild_rankings.py:16-62 | for all lawful rules and every list of fights between distinct fighters total Elo strays from 1500 per fighter by at most 1.25 times the summed K-factor differences |
| Rankings.RebuildConservesElo | intelligence/pipeline/rebuild_rankings.py:16-62 | with balanced fights total Elo is 1500 per fighter after every rebuild |
| Rankings.RebuildInRange | intelligence/pipeline/rebuild_rankings.py:16-62 | after every rebuild every deviation lies in [60,350] |
| Rankings.DeviationsShrink | intelligence/pipeline/rebuild_rankings.py:27-52 | over a rebuild no deviation ever grows |
| Rankings.EveryFightCounts | intelligence/pipeline/rebuild_rankings.py:25-52 | in every rebuild each fight between two known fighters, at its turn, raises the winner, lowers the loser and moves nobody else |
| Rankings.UnfoughtKeepsStart | intelligence/pipeline/rebuild_rankings.py:16-22 | whoever is in no such fight ends at 1500 on both scales with a deviation of 350 |
| Rankings.RebuildRankings | intelligence/pipeline/rebuild_rankings.py:21-52 | with the rules of the source the loop computes the fold that these laws are about |
| Odds.ToFraction | prediction/probabilities/all.py:88-97 | the fraction found misses x by no more than any fraction with an allowed denominator, and by less than any with a smaller one |
| Odds.NearestIsUnique | prediction/probabilities/all.py:88-97 | only one fraction meets that specification |
| Odds.NearestIsReduced | prediction/probabilities/all.py:88-97 | it is in lowest terms and no fraction with a smaller denominator has its value |
| Odds.NearestHitsExactly | prediction/probabilities/all.py:88-97 | a number that is such a fraction is returned exactly |
| Odds.ProbabilityToOdds | prediction/probabilities/all.py:60-85 | the two failures and exactly when they occur; otherwise the American odds, the rounded decimal and probabilities, and the nearest fraction with a denominator up to 20 |
| Odds.RoundTripError | prediction/probabilities/all.py:66-69 | American odds and back move a probability by at most 1/802, and the odds are never between -100 and 100 |
| Odds.RoundTripErrorAttained | prediction/probabilities/all.py:66-69 | 201/401 moves by exactly that much |
| Odds.RoundTripIff | prediction/probabilities/all.py:60-104 | the round trip is that close exactly for probabilities strictly between 0 and 1 |
| Rounding.RoundIsNearest | prediction/probabilities/all.py:93 | no integer is nearer than the rounded one |
| Rounding.TiesToEven | prediction/probabilities/all.py:93 | of two integers as near it takes the even one |
| Rounding.RoundedIsNearest | prediction/probabilities/all.py:72 | rounding to decimals gives the nearest multiple of the last place, within half of it |
| Autocomplete.AutocompleteEngine.Index | recommendation/search/hybrid.py:77-86 | the nested loops leave, under every key, the first five entities filed there |
| Autocomplete.AutocompleteEngine.Suggest | recommendation/search/hybrid.py:88-89 | for any lowercasing, the limit-slice of the first five entries filed under the lowercased text; in terms of the list, the entities with a prefix that lowercases to it, or whose prefix of the text's length does, or whose lowercased title starts with it, each where lowercasing allows it for these titles and this text |
| Autocomplete.FiledOnceIff | recommendation/search/hybrid.py:79-86 | what the loops file under every key is what a scan for titles with such a prefix finds, each entity once, exactly when no title has two prefixes with one lowercase text |
| Autocomplete.FilterSameIff | recommendation/search/hybrid.py:79-89 | two scans of a list find the same exactly when their tests agree on each entity |
| Autocomplete.LimitsNest | recommendation/search/hybrid.py:88-89 | the slice of a limit not negative is the first min(5, limit) matches |
| Autocomplete.NegativeLimit | recommendation/search/hybrid.py:88-89 | a negative limit leaves off as many from the end |
| Autocomplete.TitleOf | recommendation/search/hybrid.py:80 | the name is indexed if there is one, otherwise the full name |
| Autocomplete.FindsByStartIff | recommendation/search/hybrid.py:79-89 | for such a list and any key, the table finds the titles that start with it exactly when each title starts with it just if one of its prefixes lowercases to it |
| Autocomplete.MeasuredFindsByStartIff | recommendation/search/hybrid.py:79-89 | for titles and a text whose lengths are kept, exactly when the prefix of the text's length decides whether the title starts with the text |
| Autocomplete.AlwaysFindsByStartIff | recommendation/search/hybrid.py:79-89 | for titles whose lengths are kept, it does so for all texts of two or more characters whose length is kept exactly when lowercasing keeps the titles' prefixes |
| Sessions.SessionTable.CreateSession | backend/src/auth/tokens.py:126-154 | appends one live session |
| Sessions.SessionTable.RotateRefreshToken | backend/src/auth/tokens.py:50-123 | not found and ambiguous change nothing, a revoked token revokes the user's sessions, otherwise the old session is revoked and a new one appended |
| Sessions.SessionTable.RevokeSession | backend/src/auth/tokens.py:157-169 | revokes the row with that id and user and says whether there is one |
| Sessions.SessionTable.RevokeAllSessions | backend/src/auth/tokens.py:172-184 | leaves the user no live session and returns how many there were |
| Sessions.PresentedIff | backend/src/auth/tokens.py:83-94 | a token is unknown exactly when no row matches, ambiguous exactly when two do |
| Sessions.RevokedIsCaughtIff | backend/src/auth/tokens.py:96-108 | a revoked token is caught exactly when no other session of the user has its hash, and never rotates |
| Sessions.NewTokenWorks | backend/src/auth/tokens.py:50-169 | the token of a new session, its hash new to the user, rotates when presented, and is caught once revoked under the session's id |
| Sessions.LiveAfter | backend/src/auth/tokens.py:50-184 | how each call changes every user's number of live sessions: rotation leaves it alone, revoking one session takes off the live ones with that id and user |
| Sessions.OneLivePerLogin | backend/src/auth/tokens.py:50-184 | in every run a login's rotation chain has at most one live session and one user |
| Sessions.LiveAtMostLogins | backend/src/auth/tokens.py:50-184 | in every run a user has at most as many live sessions as logins |
| Sessions.RunExtends | backend/src/auth/tokens.py:50-184 | over any stretch of a run rows keep what they say and revoked is never cleared |
| Sessions.RotatesOnce | backend/src/auth/tokens.py:96-123 | a token rotates at most once in any run; with distinct hashes its second presentation is caught and leaves the user no live session |
| Sessions.ReuseEndsAll | backend/src/auth/tokens.py:96-108 | the same for a token revoked in any way |
| Sessions.SameHashHidesReuse | backend/src/auth/tokens.py:77-94 | a new token with the old one's hash would make every later presentation ambiguous |

## Left out

- Floating point: numbers are reals. Powers, roots and logarithms enter as functions known only by
  their range or monotonicity; a Glicko deviation is kept as its square; the NDCG discount is any
  positive decreasing one.
- `heapq` is not part of the repository; it is modelled by its standard sift-up and sift-down.
- Lowercasing, stripping and date parsing are parameters of the matching and autocomplete models.
- Sorting: the relevances of NDCG enter as a ranking, whose existence is proved; fights enter in any
  order, so the laws hold for the date order too.
- Hash collisions and repeated random identifiers: stated as distinct-hash and fresh-token conditions.
- The interleaved runs of `_execute_job` are a state machine rather than a class, because every await
  in it is a point where other tasks, processes and Redis move; the lock object it uses is a class
  over the same store functions.
- The sign and formatting of odds as text.
- Degraded runs with Redis down appear in the lock object but not in the protocol, which assumes a
  live server; runs started by the queue worker bypass the lock and are not part of it.
- `RedisLock.extend` has no caller in the repository, so it is an operation of the lock object but not
  a step of the protocol; a negative extension is not modelled.
- The in-process scheduler's queue, retry and monitor modules under `backend/src/scheduler` are not
  part of this model; a dependency check that skips a run is one.
- When Redis fails during a command, the model takes the command not to have run.
- Cancelling coroutines, which the code does not handle as a job outcome.
- Random run ids: a run is known by the put number of its entry.
- Job histories, worker records, latency averages and dashboards.
- `resolve_fighters` counters, aliases, event comparison, composite scores and rating decay for
  inactivity (`increase_rd`): they would add only easy members.
- The access-token blocklist, session expiry times and the device fields of a session; `refresh` hands
  out new tokens even when rotation found reuse, which the session table does not see.
- HTTP, SQL, Redis transport, logging, metrics export, embeddings, training and user interfaces.
- JobScheduler.ExecuteJob: takes the outcomes of the fetches as given and leaves out parsing and
  validation counts.
- SlidingWindow.RateLimiter.Dispatch: takes the clock reading and client address as given.
