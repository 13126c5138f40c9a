# Fibers, switched and scheduled

A model, with proofs, of the hard core of a fiber library that exists in several designs, and of the
event-driven simulation that exercises it.

- **Calendar queue** (`Calendar*.dfy`): the priority queue of the simulation, a circular array of
  sorted buckets with a moving cursor, a direct-search fallback and resizing between the two ends of
  one array. `Calendar` and `CalendarOps` describe it on values, `CalendarQueue.CalQueue` is the
  object updated in place and computes exactly those functions. Proved: conservation over whole runs,
  when a get returns the minimum, refinement of a plain priority queue, thresholds and hysteresis, and
  which runs survive their resizes (`CalendarSurvival`), and what a resize samples and makes of it (`CalendarWidth`).
- **Fiber runtimes**: `FiberTable` (thread table, `Module/Fiber.c`), `FiberList` (linear scans,
  `Sviluppo/Fiber.c`), their simulation, what whole runs preserve and what they record (`FiberRuns`, `FiberHistory`); `FiberModule` and
  `FiberListModule` are the objects. `KernelSwitch` takes `fib_switch_to` apart into its locked steps
  and shows every interleaving equivalent to a sequence of atomic calls; `KernelProgress` and
  `KernelTangle` say exactly when these calls return. `UltProtocol` does the same
  for the user-level switch: trylock, save, unlock, load; `UltProgress` shows that its calls go through.
  `Fls` and `FlsModule` are fiber-local storage, `FlsHistory` its answers read off the requests.
- **GSM cell**: `Gsm` (ProcessEvent on values), `ChannelBits` and `GsmCell` (bitmap words and doubly
  linked list), `GsmRuns` and `GsmProgram` (the main loop on the calendar queue), `GsmTimes` (its random times),
  `GsmExamples` (a run out of order).
- **Machine and arithmetic cores**: `Jump` (`_set_jmp`, `_long_jmp`), `Numerical` (the generator).

`dafny verify dfyconfig.toml` checks everything.

## What the proofs found

- `calqueue_get` does not always return the minimum. The direct search moves `lastprio` without
  computing `buckettop` afresh. Let lag be the integer with buckettop/cwidth = floor(lastprio/cwidth) +
  1.5 - lag. At lag 1, and also at lag 1 - nbuckets, the sweep accepts only the lower halves of virtual
  buckets and can pass over the smallest node; at every other lag from 2 - nbuckets on it cannot.
  `CalendarOrder.RemovesMinimum` is the exact condition, `CalendarExamples.OvertakenAtLagOne` a run that
  shows the failure, `GsmExamples.EventsOutOfOrder` one of the simulation itself, and
  `CalendarRuns.GetsOffLagOneNeverMiss` is a condition on the lag alone.
- `new_width` need not return a positive width. For samples in order it divides zero by zero exactly when
  all of them tie (`CalendarResizing.WidthOfSorted`; five puts of one priority do it,
  `CalendarExamples.FiveTies`). Samples are not always in order: a resize at lag 1 samples past the
  smallest node, and then the width can be negative, even though all priorities differ and no get has been
  overtaken or has started at lag 1 (`CalendarExamples.NegativeWidth`). C goes on with bucket numbers before
  the start of the array (`CalendarSurvival.BucketNumbers`). In the model a resize without a positive width is
  the outcome `BadWidth`, and runs with it do not survive. `CalendarResizing.ResizeWorksExactly` and
  `CalendarSurvival.SurvivesExactly` say exactly when a resize, and a run, comes through;
  `CalendarSurvival.GapsDecide` and `DistinctSurvives` give conditions a caller can check.
- `fib_switch_to` takes the lock of the caller's fiber and then that of the target, in no global order, and
  so can deadlock: two threads that switch to each other's fibers do (`KernelProgress.CrossingKnots`).
  `KernelProgress.CanReturnExactly` is the exact condition for the calls in progress to be able to return,
  `KernelTangle.SureToReturnExactly` that for them to return under every scheduler, and
  `KernelTangle.DeadlockFreeExactly` what the callers have to look at before each call.
- The two kernel designs charge a refused switch to different fibers if another thread runs the target
  (`FiberSimulation.FailuresChargedDifferently`, `FailuresAgreeExactly`), and leave a different number of bytes at the top of a
  new stack.
- Freeing a fiber-local slot does not clear it (`Fls.StaleAfterFree`).
- `random()` is below 2^31, so the upper half of the 64-bit seed starts at zero and stays there: the
  second multiply-with-carry generator never runs (`Numerical.UpperHalfIdle`).

## Conventions

`double` is `real`; `(int)` of a quotient is its floor, for priorities that are not negative, which is
what the bucket computation needs. `unsigned long` time arithmetic is modulo 2^64. Clock readings,
random times, user computation between calls and the contents of registers are parameters of every
call, arbitrary unless said otherwise. Where a C function would crash or run off its end (an
unconverted caller of the storage calls, a switch to an id that does not exist in
SviluppoHashTable2) the model requires the caller not to do that. A legal run of the calendar queue is one
that puts nothing before the last dequeued priority and survives its resizes.

## Model

| member | source | states |
|---|---|---|
| `CalendarOrder.RemovesMinimum` | 2018-fibers/src/calqueue.c:165-230 | A removal from a queue with consistent cursor and lag at least 1 - nbuckets takes a node of smallest priority, by sweep or by direct search, if and only if the queue is not in a missing state: lag 1 or 1 - nbuckets, with a node in the lower half of its virtual bucket ahead of the smallest |
| `CalendarOrder.LagBounds` | 2018-fibers/src/calqueue.c:187-210 | A removal never brings the lag below 1 - nbuckets, nor, unless it starts at lag 1, below 2 - nbuckets; a sweep that finds a node within the first round leaves the lag as it is |
| `CalendarOrder.DirectIsMin` | 2018-fibers/src/calqueue.c:214-226 | The direct search of a non-empty queue finds a bucket whose head is a smallest node of the whole queue, so that its bucket number is never -1 |
| `CalendarOrder.HitMeans` | 2018-fibers/src/calqueue.c:179 | Which virtual bucket, and which half of it, the test against buckettop accepts in step k of the sweep, as a function of the lag |
| `CalendarOrder.InitOrdered` | 2018-fibers/src/calqueue.c:232-236 | The initial queue is empty, in shape, and ordered |
| `CalendarOrder.PutOrdered` | 2018-fibers/src/calqueue.c:238-278 | A put at or after the last dequeued priority keeps the queue ordered, also through a resize |
| `CalendarOrder.DeqOrdered` | 2018-fibers/src/calqueue.c:165-200 | A removal that returns a smallest node keeps the queue ordered, also through a resize |
| `CalendarRuns.RefinesPlainQueue` | 2018-fibers/src/calqueue.c:165-292 | For every legal run the gets are answered as a plain priority queue would answer them, if and only if no get of the run finds the queue in a missing state |
| `CalendarRuns.InitRefinesPlainQueue` | 2018-fibers/src/calqueue.c:232-292 | The same from calqueue_init on |
| `CalendarRuns.GetsNondecreasing` | 2018-fibers/src/calqueue.c:165-292 | On every legal run without missing states the gets come out in nondecreasing order |
| `CalendarRuns.GetsOffLagOneNeverMiss` | 2018-fibers/src/calqueue.c:187-210 | From a queue at lag 2 - nbuckets or more, no get of a legal run that survives meets a missing state, if none starts at lag 1 |
| `CalendarRuns.InitGoodLag` | 2018-fibers/src/calqueue.c:36-40 | calqueue_init leaves lag 0, a good lag to start from |
| `CalendarRuns.RunConserves` | 2018-fibers/src/calqueue.c:165-292 | Over every run, in whatever order the nodes come out: initial contents plus everything put equals everything answered plus what is left, as multisets |
| `CalendarSurvival.SurvivesExactly` | 2018-fibers/src/calqueue.c:116-162 | Every run that puts nothing before the last dequeued priority survives its resizes if and only if in each of them the kept gaps of the sample have a positive sum |
| `CalendarSurvival.GapsDecide` | 2018-fibers/src/calqueue.c:83-162 | If moreover no removal, of a get or of a sample, starts at lag 1, the run survives if and only if every resize samples a gap strictly between zero and twice the average gap; and then no get meets a missing state |
| `CalendarSurvival.DistinctSurvives` | 2018-fibers/src/calqueue.c:83-162 | If the priorities differ pairwise, every such run survives |
| `CalendarSurvival.InitSurvives` | 2018-fibers/src/calqueue.c:232-292 | From calqueue_init on: such a run with pairwise different priorities survives and is answered as by a plain priority queue |
| `CalendarSurvival.StepWorksExactly` | 2018-fibers/src/calqueue.c:195-196 | One operation succeeds if and only if it resizes nothing or the gaps its resize keeps have a positive sum |
| `CalendarSurvival.BucketNumbers` | 2018-fibers/src/calqueue.c:249-252 | The bucket number as C computes it, truncating: that of the model for a priority that is not negative and a positive width; at or before the start of the array where their signs differ; 0 for a negative priority above -cwidth |
| `CalendarExamples.NegativeWidth` | 2018-fibers/src/calqueue.c:83-116 | Put 3.0, get, put 3.7, 4.2, 3.8, 3.9, 3.95: different priorities, no overtaken get and none at lag 1, and yet the last put resizes with width -1.5, with which C computes bucket number -2 |
| `CalendarExamples.FiveTies` | 2018-fibers/src/calqueue.c:83-116 | Five puts of any one priority: the resize of the fifth divides zero by zero |
| `CalendarExamples.OvertakenAtLagOne` | 2018-fibers/src/calqueue.c:202-226 | Put 3.0, get, put 3.7, put 4.2, get: the second get answers 4.2 although 3.7 is stored |
| `CalendarOps.PutConserves` | 2018-fibers/src/calqueue.c:238-278 | A put, resize included, adds exactly the new node, leaves lastprio alone and keeps every node in bucket floor(priority/cwidth) mod nbuckets, buckets sorted and qsize exact |
| `CalendarOps.DeqConserves` | 2018-fibers/src/calqueue.c:165-200 | A removal, resize included, takes out exactly the node it returns, and returns one exactly when there is one; shape is kept |
| `CalendarOps.ResizeShape` | 2018-fibers/src/calqueue.c:130-163 | A resize with a positive width keeps the multiset of nodes and yields a queue in shape with the new number of buckets, cursor at lag 0 |
| `CalendarOps.NewWidthShape` | 2018-fibers/src/calqueue.c:51-125 | Sampling puts every node back and restores the cursor: contents and shape are as before |
| `CalendarOps.TwoEndedStorage` | 2018-fibers/src/calqueue.c:146-151 | The region a resize initialises lies within the array and never overlaps the region still to be copied |
| `CalendarOps.HalveDouble` | 2018-fibers/src/calqueue.c:195-196 | The sizes passed to resize are powers of two between 2 and MAXNBUCKETS |
| `CalendarShape.DeqShape` | 2018-fibers/src/calqueue.c:177-192 | Without the resize a removal finds a bucket, keeps the shape and removes the node it returns |
| `CalendarShape.PutContents` | 2018-fibers/src/calqueue.c:249-272 | Without the resize an insertion adds exactly the new node |
| `CalendarShape.InsertSorted` | 2018-fibers/src/calqueue.c:254-269 | Insertion into a sorted bucket keeps it sorted and adds the node |
| `CalendarResizing.RunSettled` | 2018-fibers/src/calqueue.c:43-44 | Between operations of every run: bot_threshold <= qsize, and qsize <= top_threshold unless nbuckets is maximal |
| `CalendarResizing.Hysteresis` | 2018-fibers/src/calqueue.c:195-196 | After an operation that resized to m buckets, fewer than m/2 further operations, whatever they are, never attempt to resize, and so succeed |
| `CalendarResizing.QuietRun` | 2018-fibers/src/calqueue.c:195-196 | As long as the puts cannot bring the size above the upper threshold nor the gets below the lower one, no resize is attempted |
| `CalendarResizing.StepSettled` | 2018-fibers/src/calqueue.c:275-277 | An operation resizes exactly when it crosses a threshold, and then leaves m - 3 or m + 1 nodes for m buckets |
| `CalendarResizing.WidthOfSorted` | 2018-fibers/src/calqueue.c:83-116 | For samples in order: the width is 0/0 exactly when all samples tie, is below six average gaps, and is positive exactly when some gap lies strictly between zero and twice the average |
| `CalendarResizing.WidthOfIncreasing` | 2018-fibers/src/calqueue.c:83-116 | Strictly increasing samples keep at least one gap: the width lies strictly between zero and six average gaps |
| `CalendarResizing.ResizeWorksExactly` | 2018-fibers/src/calqueue.c:130-140 | A resize of any queue finds a positive width if and only if fewer than two nodes are stored or the gaps of the sample below twice their average have a positive sum |
| `CalendarResizing.ResizeFindsWidth` | 2018-fibers/src/calqueue.c:130-140 | A resize of an ordered queue sampled without missing states finds a positive width if and only if fewer than two nodes are stored or some gap of the sample lies strictly between zero and twice the average |
| `CalendarResizing.DistinctKeepsGap` | 2018-fibers/src/calqueue.c:100-106 | Pairwise different priorities, sampled without missing states, always leave such a gap |
| `CalendarResizing.TiesGiveNoWidth` | 2018-fibers/src/calqueue.c:100-116 | If all stored priorities tie, the width is 0/0 |
| `CalendarResizing.SampleSizeBounds` | 2018-fibers/src/calqueue.c:63-73 | The sample is never larger than the queue or than 25, and has at least two nodes when the queue has |
| `CalendarWidth.SampleSizeExactly` | 2018-fibers/src/calqueue.c:63-73 | All of up to five nodes are sampled, then one more for every ten stored, and exactly 25 from 200 on |
| `CalendarWidth.NewWidthSamples` | 2018-fibers/src/calqueue.c:63-88 | The sample of any queue is a part of it of exactly that size, and new_width finds the width of it |
| `CalendarWidth.SampleIsSmallest` | 2018-fibers/src/calqueue.c:76-88 | Sampled without missing states, it consists of the smallest nodes of the queue |
| `CalendarWidth.WidthIsKeptAverage` | 2018-fibers/src/calqueue.c:83-116 | For samples in any order: the width is three times the average of the gaps below twice the average gap, which is the distance from first to last sample over their number less one; without such gaps there is none |
| `CalendarWidth.ResizedWidth` | 2018-fibers/src/calqueue.c:58-61 | The bucket width of every resize that works: 1.0 if fewer than two nodes are stored, otherwise that width |
| `CalendarResizing.SampleSorted` | 2018-fibers/src/calqueue.c:83-88 | A sample taken without missing states is in order, strictly if priorities differ pairwise |
| `CalendarQueue.CalQueue.constructor` | 2018-fibers/src/calqueue.c:232-236 | The new object is the initial queue |
| `CalendarQueue.CalQueue.LocalInit` | 2018-fibers/src/calqueue.c:19-45 | The object becomes the initialised queue; the array outside the new region is untouched |
| `CalendarQueue.CalQueue.NewWidth` | 2018-fibers/src/calqueue.c:51-125 | Computes NewWidth; the nested removals and insertions never resize (the decreases clauses: no cascade) |
| `CalendarQueue.CalQueue.Resize` | 2018-fibers/src/calqueue.c:130-163 | Computes Resize, in place at the other end of the array; the copy never triggers a resize |
| `CalendarQueue.CalQueue.CopyBuckets` | 2018-fibers/src/calqueue.c:153-162 | The copy loop inserts every node of the old region, which the new region does not overwrite |
| `CalendarQueue.CalQueue.Unlink` | 2018-fibers/src/calqueue.c:177-226 | The sweep with its fallback, as a loop over the array: equals the removal on values |
| `CalendarQueue.CalQueue.Deq` | 2018-fibers/src/calqueue.c:165-230 | Computes Deq, resize included |
| `CalendarQueue.CalQueue.Put` | 2018-fibers/src/calqueue.c:238-278 | Computes Put, resize included; without a threshold crossed it is the plain insertion |
| `CalendarQueue.CalQueue.InsertInto` | 2018-fibers/src/calqueue.c:254-269 | The list walk finds the place of Insert |
| `CalendarQueue.CalQueue.FindBucket` | 2018-fibers/src/calqueue.c:177-226 | The loop with its wrap-around stops at the bucket NextBucket and moves buckettop by the steps taken |
| `CalendarQueue.CalQueue.DirectSearch` | 2018-fibers/src/calqueue.c:215-222 | The loop over all buckets finds the bucket of the smallest head |
| `CalendarQueue.CalQueue.TakeSample` | 2018-fibers/src/calqueue.c:83-88 | The sampling loop: the first nsamples nodes and the sum of their gaps |
| `CalendarQueue.CalQueue.PutBack` | 2018-fibers/src/calqueue.c:96-106 | The re-insertion loop: all samples back, sum and number of the kept gaps |
| `CalendarQueue.CalQueue.Get` | 2018-fibers/src/calqueue.c:280-292 | Answers the payload of the removed node and keeps the object valid |
| `CalendarQueue.CalQueue.Empty` | 2018-fibers/src/calqueue.c:294-296 | True exactly when no node is stored |
| `FiberTable.StepKeepsOwnership` | SviluppoHashTable/Module/Fiber.c:706-1001 | Every call keeps runner and selected_thread inverse, fibers numbered from 1, and a fiber on every converted thread |
| `FiberTable.StepGrows` | SviluppoHashTable/Module/Fiber.c:811-813 | Fibers and threads are never lost, and no id is given twice |
| `FiberSimulation.DesignsAgree` | SviluppoHashTable/Module/Fiber.c:706-1001 | For every sequence of calls the thread-table design and the list design give the same ids, successes and failures, the same loaded context whenever the fiber entered has run before, the same saved contexts, counters and times of such fibers, the same fiber on every thread and the same total of failed activations |
| `FiberSimulation.RunSimulates` | Sviluppo/Fiber.c:653-956 | The relation between the two designs is kept and replies agree over every run from related states |
| `FiberSimulation.StepSimulates` | Sviluppo/Fiber.c:846-956 | One call keeps the relation and gets agreeing replies |
| `FiberSimulation.SameContexts` | Sviluppo/Fiber.c:927-931 | In agreeing states, a switch to a fiber that has run before is answered alike by both designs, context included |
| `FiberSimulation.FailuresChargedDifferently` | Sviluppo/Fiber.c:899-904 | A switch to a fiber another thread runs fails in both designs; the list charges the target, the table the asking fiber |
| `FiberSimulation.FailuresAgreeExactly` | SviluppoHashTable/Module/Fiber.c:910-934 | The failures counted for each fiber agree in both designs after every call of a run, if and only if no call of it is refused because another thread runs its target |
| `FiberSimulation.StepChargesExactly` | Sviluppo/Fiber.c:899-904 | One call changes the failure counts of the two designs alike, if and only if it is not refused because another thread runs its target |
| `FiberRuns.ContextRoundTrip` | SviluppoHashTable/Module/Fiber.c:941-957 | A fiber switched out with a context resumes with exactly that context, on any thread and after any calls that do not enter it |
| `FiberRuns.FreshStart` | SviluppoHashTable/Module/Fiber.c:792-808 | A created fiber first resumes at its function, with its argument, eight bytes below the top of its stack; all else, floating-point state included, is as its creator had it |
| `FiberHistory.RecordsAreExact` | SviluppoHashTable/Module/Fiber.c:742-745 | After every run, for each fiber: correct_counter is the number of converts and switches that entered it, failed_counter the number of refused switches it asked for, last_activation_time the clock at its last entry, exec_time modulo 2^64 the sum of its times from entry to exit |
| `FiberHistory.MakerIsNamed` | SviluppoHashTable/Module/Fiber.c:789-812 | Every fiber a run has made names for ever the thread that made it and where it was to start |
| `FiberHistory.ConversionSaves` | SviluppoHashTable/Module/Fiber.c:789-806 | A conversion saves all of the thread's context; in the list design only its registers, with stack pointers, argument and floating-point state cleared |
| `FiberRuns.ContextKept` | SviluppoHashTable/Module/Fiber.c:941-957 | No run that does not enter a suspended fiber changes its saved context |
| `FiberRuns.TimeTelescopes` | SviluppoHashTable/Module/Fiber.c:963-968 | Over every run and for arbitrary clock readings, modulo 2^64: the sum of exec_time is the sum of last_activation_time over running fibers minus the readings at convert; correct_counter adds up to successful converts and switches |
| `FiberRuns.SwitchAccounts` | SviluppoHashTable/Module/Fiber.c:963-968 | One switch keeps the time balance |
| `FiberModule.Process.FibConvert` | SviluppoHashTable/Module/Fiber.c:706-761 | Computes FibConvert on objects that point to each other, keeping them consistently filed |
| `FiberModule.Process.FibCreate` | SviluppoHashTable/Module/Fiber.c:856-880 | Computes FibCreate |
| `FiberModule.Process.DoFibCreate` | SviluppoHashTable/Module/Fiber.c:777-855 | The new fiber object, with its own context only when the flag is 1 |
| `FiberModule.Process.DoThreadCreate` | SviluppoHashTable/Module/Fiber.c:763-775 | Files a thread without a runner |
| `FiberModule.Process.FibSwitchTo` | SviluppoHashTable/Module/Fiber.c:881-1001 | Computes FibSwitchTo: branches, counters, contexts and both pointers |
| `FiberListModule.ListProcess.FibConvert` | Sviluppo/Fiber.c:653-718 | Computes FibConvert of the list design |
| `FiberListModule.ListProcess.FibCreate` | Sviluppo/Fiber.c:802-842 | Computes FibCreate of the list design |
| `FiberListModule.ListProcess.DoFibCreate` | Sviluppo/Fiber.c:721-799 | The new element goes to the front with the next id |
| `FiberListModule.ListProcess.FindRunner` | Sviluppo/Fiber.c:877-880 | The scan finds the first fiber run by the thread |
| `FiberListModule.ListProcess.FindId` | Sviluppo/Fiber.c:894-897 | The scan finds the fiber of the id |
| `FiberListModule.ListProcess.FibSwitchTo` | Sviluppo/Fiber.c:846-956 | Computes FibSwitchTo of the list design |
| `FiberList.StepKeepsFlags` | Sviluppo/Fiber.c:936-939 | The running flag is set exactly while a runner is recorded |
| `KernelSwitch.Linearizable` | SviluppoHashTable/Module/Fiber.c:906-980 | Every interleaving of the locked steps of any number of threads ends in the state that the atomic calls which took effect produce one after the other, and the answers the threads got are those of these calls; each of these calls took effect once, between entry and return of the thread that made it, for the fiber it named and with the context it entered with |
| `KernelSwitch.NextAsAsked` | SviluppoHashTable/Module/Fiber.c:941-957 | The call that takes effect in a step is the one its thread has entered with and has not yet been served: same thread, target and context; a thread returns only when served |
| `KernelSwitch.EntersWith` | SviluppoHashTable/Module/Fiber.c:881-906 | A thread outside the call may compute up to any context and enter with it, for any fiber |
| `KernelSwitch.TakesEffectOnce` | SviluppoHashTable/Module/Fiber.c:906-980 | A call takes effect in exactly one of its steps, as a call by this thread for the fiber it named |
| `KernelSwitch.AnswerStands` | SviluppoHashTable/Module/Fiber.c:971-985 | Once its call has taken effect, no step of any thread changes what a thread runs or has loaded until it has returned |
| `KernelSwitch.MutualInverse` | SviluppoHashTable/Module/Fiber.c:907-957 | In every reachable state: selected_thread and runner are inverse where the lock is free, and no two threads share a runner |
| `KernelSwitch.LockDiscipline` | SviluppoHashTable/Module/Fiber.c:941-954 | A thread about to read or write saved registers holds that fiber's lock |
| `KernelSwitch.OnlyUnderLock` | SviluppoHashTable/Module/Fiber.c:908-973 | A step never changes a fiber whose lock the thread does not hold |
| `KernelSwitch.NextKeepsInv` | SviluppoHashTable/Module/Fiber.c:881-1001 | Every step of every thread keeps the lock-level invariant |
| `KernelSwitch.NextMatches` | SviluppoHashTable/Module/Fiber.c:881-1001 | Every step either stutters or performs one atomic call on the table it stands for, the one its thread asked for with its context on entry, with the same answer and the same loaded context |
| `KernelProgress.CrossingKnots` | SviluppoHashTable/Module/Fiber.c:908-926 | Two converted threads that call for each other's fibers and take their first locks: they are knotted, and the calls can never all return |
| `KernelProgress.KnotStays` | SviluppoHashTable/Module/Fiber.c:908-926 | Threads each of which holds a lock and is bound to ask for one held among them stay so, whatever step any thread takes |
| `KernelProgress.CanReturnExactly` | SviluppoHashTable/Module/Fiber.c:906-980 | In any state that keeps the lock-level invariant, as all reachable ones do, all calls in progress can still return if and only if no threads are knotted; the threads of a knot never return, whatever is done |
| `KernelProgress.Progress` | SviluppoHashTable/Module/Fiber.c:906-980 | As long as no threads are knotted, some call in progress can take a step after which none are |
| `KernelProgress.StepsDecrease` | SviluppoHashTable/Module/Fiber.c:906-980 | Every step of a call in progress makes the total of the steps left smaller |
| `KernelTangle.SureToReturnExactly` | SviluppoHashTable/Module/Fiber.c:906-980 | The calls in progress all return under every scheduler, if and only if no callers that do not have both locks yet want each other's fibers in a circle |
| `KernelTangle.SchedulesEnd` | SviluppoHashTable/Module/Fiber.c:906-980 | Under every scheduler the calls in progress take a bounded number of steps |
| `KernelTangle.CallKeepsSureExactly` | SviluppoHashTable/Module/Fiber.c:906-926 | Where all calls in progress are sure to return, one more call leaves it so, if and only if the wants of the thread that runs the target do not lead, over other callers, to the caller's own fiber |
| `KernelTangle.DeadlockFreeExactly` | SviluppoHashTable/Module/Fiber.c:881-1001 | In every state of an execution from the empty process the calls in progress are sure to return, if and only if no call was made whose target leads back to its caller |
| `UltProtocol.OneHolder` | 2018-fibers/src/ult.c:207-221 | After every run of interleaved steps a running flag is set exactly when one thread holds the fiber, and never two do |
| `UltProtocol.UnlockedIsComplete` | 2018-fibers/src/ult.h:24-36 | After every run the saved context of an unlocked fiber is a complete one, the one it was last left with, except while the main thread is about to lock the fiber it creates |
| `UltProtocol.ContextComesBack` | 2018-fibers/src/ult.h:24-28 | Whatever all threads do after a fiber was left at nobody's disposal, newly created ones included, the next thread that switches into it ends up with its whole saved context |
| `UltProtocol.LeftAsCalled` | 2018-fibers/src/ult.h:24-28 | A fiber is unlocked with the context in which its thread called ult_switch_to |
| `UltProtocol.NeverStuck` | 2018-fibers/src/ult.c:36-48 | No thread is ever stuck inside a switch or a creation; the locks taken in a creation are free |
| `UltProtocol.CreationReturns` | 2018-fibers/src/ult.c:81-141 | From entering ult_creat to returning, whatever other threads do meanwhile: the new fiber is left unlocked at its entry point, the creator in its own fiber with the context of its call |
| `UltProtocol.FirstSwitchStartsAtEntry` | 2018-fibers/src/ult.c:81-141 | From entering ult_creat on: the first thread to switch into the new fiber, whenever it does, starts at its entry point |
| `UltProtocol.UnownedExactly` | 2018-fibers/src/ult.c:31-48 | A fiber is at nobody's disposal exactly if its running flag is clear and no creation goes on from it or of it |
| `UltProgress.SwitchGoesThrough` | 2018-fibers/src/ult.c:207-221 | A call of ult_switch_to for a free fiber ends, by the thread's own steps, in that fiber with its whole saved context and its flag set; the old fiber is left unlocked with the context of the call; nothing else changes |
| `UltProgress.SwitchIsRefused` | 2018-fibers/src/ult.c:211-213 | A call for a fiber that is locked, or none, returns with nothing changed, and no other call does |
| `UltProgress.CreationGoesThrough` | 2018-fibers/src/ult.c:81-205 | The main thread's call of ult_creat goes through by its own nine steps |
| `UltProgress.Converted` | 2018-fibers/src/ult.c:170-183 | A thread that converts goes on in a new fiber of its own, locked |
| `UltProgress.FirstFiberStarts` | 2018-fibers/src/ult.c:207-221 | From the start: convert, create, complete the initialisation; the first switch then starts the new fiber at its entry point |
| `UltProtocol.RunKeepsInv` | 2018-fibers/src/ult.c:31-221 | The protocol invariant holds along every run |
| `UltProtocol.NextKeepsInv` | 2018-fibers/src/ult.c:31-221 | Every step of every thread keeps the protocol invariant |
| `Fls.Isolation` | SviluppoHashTable2/Fiber.c:898-1277 | In every run the requests of a fiber are answered as if its storage were alone, whatever other fibers request and however fibers move between threads |
| `Fls.GetsLastSet` | SviluppoHashTable2/Fiber.c:1158-1176 | A get returns the value the fiber last set, for whichever thread runs it, until the fiber sets or frees the slot |
| `Fls.AllocTakesLowest` | SviluppoHashTable2/Fiber.c:963-986 | An allocation answers -1 and changes nothing exactly when all slots are taken; otherwise the lowest free index, and only that slot becomes allocated |
| `Fls.SlotKept` | SviluppoHashTable2/Fiber.c:963-1076 | Until it is set or freed an allocated slot keeps its value and is never allocated again |
| `Fls.StaleAfterFree` | SviluppoHashTable2/Fiber.c:1062-1076 | A freed index is answered next exactly when no lower one is free, and then still holds the old value |
| `FlsHistory.AnswersFollowHistory` | SviluppoHashTable2/Fiber.c:898-1277 | In every run, whatever other fibers do, a fiber's requests are answered as its own earlier requests say: an allocation with the lowest index not held, -1 if all 4096 are; a free with whether the index was held; a get of a held index with what was last stored there, of any other with -1 |
| `FlsHistory.ServeTells` | SviluppoHashTable2/Fiber.c:998-1277 | One request gets the only right answer, and changes the storage as the history says: a free or set of an index not held changes nothing |
| `FlsHistory.RunnersAsTable` | SviluppoHashTable2/Fiber.c:774-893 | Converting, creating and switching move fibers between threads, and succeed or fail, exactly as in the thread-table design |
| `Fls.StepKeepsInv` | SviluppoHashTable2/Fiber.c:596-895 | Every call keeps one fiber per thread |
| `FlsModule.Process.FindRunner` | SviluppoHashTable2/Fiber.c:931-939 | The scan, in any order, finds the fiber the thread runs, or none exactly when there is none |
| `FlsModule.Process.FlsAlloc` | SviluppoHashTable2/Fiber.c:898-993 | Computes the allocation in place |
| `FlsModule.Process.FlsFree` | SviluppoHashTable2/Fiber.c:995-1084 | Computes the release in place; false, with no change, for an index out of range or not allocated |
| `FlsModule.Process.FlsGetValue` | SviluppoHashTable2/Fiber.c:1086-1181 | Answers the value, or -1 for an index out of range or not allocated |
| `FlsModule.Process.FlsSetValue` | SviluppoHashTable2/Fiber.c:1183-1277 | Stores the value, or changes nothing for an index out of range or not allocated |
| `FlsModule.Process.FibConvert` | SviluppoHashTable2/Fiber.c:596-665 | Computes the conversion as the storage calls see it |
| `FlsModule.Process.FibCreate` | SviluppoHashTable2/Fiber.c:731-770 | Computes the creation: empty storage |
| `FlsModule.Process.FibSwitchTo` | SviluppoHashTable2/Fiber.c:774-895 | Computes the switch as the storage calls see it |
| `FlsModule.Fiber.Alloc` | SviluppoHashTable2/Fiber.c:963-986 | The bitmap scan and the update of the bitmap |
| `Gsm.CellAgreement` | 2018-fibers/src/model.c:68-95 | Over every run, in whatever order events are handed back: no abort, bitmap, list and counters agree, one END_CALL is pending for each busy channel and one START_CALL, the queue is never empty, and the loop ends exactly at COMPLETE_CALLS |
| `Gsm.TurnAgrees` | 2018-fibers/src/main.c:70-94 | One turn of the loop keeps all of that |
| `Gsm.StartCallAgrees` | 2018-fibers/src/model.c:68-84 | A START_CALL keeps it: blocked, or a channel taken and its END_CALL sent |
| `Gsm.EndCallAgrees` | 2018-fibers/src/model.c:86-95 | An END_CALL keeps it, and tells the loop to end exactly at the last call |
| `Gsm.InitAgrees` | 2018-fibers/src/model.c:39-66 | INIT establishes it |
| `Gsm.InitSchedules` | 2018-fibers/src/model.c:40-66 | INIT makes a cell with all 1000 channels free and leaves exactly one event, the first call at the time drawn |
| `Gsm.StartCallSchedules` | 2018-fibers/src/model.c:68-82 | A call takes the lowest free channel and its END_CALL comes after its duration on that channel, or it is blocked; the next START_CALL comes after the interarrival time; no other pending event is touched |
| `Gsm.EndCallFrees` | 2018-fibers/src/model.c:86-90 | An ended call gives back its own channel and no other, and no other pending event is touched |
| `Gsm.AllocationTakesLowest` | 2018-fibers/src/channel.c:127-187 | An allocation finds the lowest free channel, and fails exactly when all are taken |
| `Gsm.DeallocationRemoves` | 2018-fibers/src/channel.c:86-117 | A deallocation finds its channel exactly when it is in the list, and takes it out of list and bitmap |
| `ChannelBits.SetIsExact` | 2018-fibers/src/model.h:37-39 | SET_CHANNEL sets the bit CHECK_CHANNEL reads for that channel and no other |
| `ChannelBits.ResetIsExact` | 2018-fibers/src/model.h:40-42 | RESET_CHANNEL clears that bit and no other |
| `ChannelBits.BitsExact` | 2018-fibers/src/model.h:27-30 | The same within one word |
| `GsmCell.Cell.constructor` | 2018-fibers/src/model.c:41-59 | The state INIT sets up: no busy channel, empty list |
| `GsmCell.Cell.Allocation` | 2018-fibers/src/channel.c:120-187 | Computes Allocation: scan of the bitmap words, new first element of the doubly linked list |
| `GsmCell.Cell.Deallocation` | 2018-fibers/src/channel.c:86-117 | Computes Deallocation; false where the code aborts |
| `GsmCell.Cell.Push` | 2018-fibers/src/channel.c:140-157 | Linking a new channel before the others keeps the list doubly linked |
| `GsmCell.Cell.Unlink` | 2018-fibers/src/channel.c:95-106 | Taking any channel out, first or inner, keeps the list doubly linked |
| `GsmCell.Cell.Find` | 2018-fibers/src/channel.c:89-94 | The search along prev finds the first channel of the id |
| `GsmProgram.Simulation.ProcessEvent` | 2018-fibers/src/model.c:23-103 | Computes ProcessEvent, its puts included; aborts exactly where the code does |
| `GsmProgram.Simulation.HandleStart` | 2018-fibers/src/model.c:68-84 | The START_CALL branch |
| `GsmProgram.Simulation.HandleAdmitted` | 2018-fibers/src/model.c:75-82 | The START_CALL branch with a free channel |
| `GsmProgram.Simulation.HandleBlocked` | 2018-fibers/src/model.c:72-82 | The START_CALL branch without one |
| `GsmProgram.Simulation.HandleEnd` | 2018-fibers/src/model.c:86-95 | The END_CALL branch |
| `GsmProgram.Simulation.HandleInit` | 2018-fibers/src/model.c:39-66 | The INIT branch |
| `GsmProgram.Simulation.Turn` | 2018-fibers/src/main.c:70-94 | One turn of the loop on the calendar queue and the cell |
| `GsmProgram.Simulation.Handle` | 2018-fibers/src/main.c:78-93 | What the loop does with the event it has got: the rest of the turn |
| `GsmProgram.Simulation.MainLoop` | 2018-fibers/src/main.c:42-94 | The loop ends by completing the calls, for want of random times or for want of a usable bucket width, never by an empty queue, a foreign event or an abort; its queue does exactly the operations ProgramOps |
| `GsmRuns.LoopIsLegal` | 2018-fibers/src/model.c:76-82 | The loop never puts an event before the last one handled, and every get finds an event |
| `GsmRuns.EventsInOrder` | 2018-fibers/src/main.c:70-94 | As long as resizes find usable widths every get finds an event; if moreover no get meets a missing state, events are handled in nondecreasing time |
| `GsmRuns.GapsDecideTheProgram` | 2018-fibers/src/main.c:70-94 | If no removal starts at lag 1: the program survives its resizes if and only if every one samples a gap strictly between zero and twice the average, and then events are handled in nondecreasing time and every get finds one |
| `GsmExamples.EventsOutOfOrder` | 2018-fibers/src/main.c:70-94 | A first call at 3.0 that lasts 0.7, the next 1.2 later: the program handles the event at 4.2 before that at 3.7 |
| `GsmRuns.LoopForward` | 2018-fibers/src/model.c:76-82 | The loop never puts an event before the last one handled, whether or not its resizes find usable widths |
| `GsmRuns.DeqFiled` | 2018-fibers/src/main.c:72-80 | A get hands back a pending event under its own time, and the queue then holds exactly the others |
| `GsmRuns.PutsFiled` | 2018-fibers/src/model.c:76-82 | The puts of an event are at or after its time, and the queue then holds exactly the pending events |
| `GsmTimes.TaIsPositive` | 2018-fibers/src/channel.c:39-61 | recompute_ta hands Expent a positive mean at every time |
| `GsmTimes.TaByPartOfWeek` | 2018-fibers/src/channel.c:39-61 | The mean time between calls depends on the part of the week alone, is shortest on weekday mornings, longest at weekends, and the same every week |
| `GsmTimes.DurationMean` | 2018-fibers/src/model.c:76 | The duration of an admitted call is drawn with mean 60, at every time of day |
| `GsmTimes.GapMean` | 2018-fibers/src/model.c:80-81 | The time to the next call is drawn with the mean of the hour, and scales with it |
| `GsmTimes.DrawsByKind` | 2018-fibers/src/model.c:57-99 | INIT takes one draw, an admitted START_CALL two, a blocked one one, an END_CALL none |
| `GsmTimes.InitTimes` | 2018-fibers/src/model.c:61-63 | INIT draws a time strictly between 0 and 20 |
| `GsmTimes.CallTimes` | 2018-fibers/src/model.c:70-82 | START_CALL draws a positive duration, if the call is admitted, and a positive time to the next call at the mean of its own time of day |
| `GsmTimes.EventTimes` | 2018-fibers/src/model.c:57-99 | Every event draws, from the generator as it stands, what its kind, its own time and the free channels ask for |
| `GsmTimes.TimedTurn` | 2018-fibers/src/main.c:72-90 | One turn of the loop draws what the event it gets asks for, at the time of that event |
| `GsmTimes.Simulate` | 2018-fibers/src/main.c:42-94 | The loop with times drawn from the generator by each event when it is handled: it never finds an empty queue, a foreign event or a reason to abort, an unusable width exactly when its queue operations do not survive, and says so exactly when all calls are complete |
| `Jump.SetJmp` | 2018-fibers/src/jmp.S:25-69 | _set_jmp returns 0 to its caller with all registers but rax, rdx, r11 and the flags unchanged, fills the context, and writes no memory but the context and the three slots below the stack pointer |
| `Jump.LongJmp` | 2018-fibers/src/jmp.S:93-132 | _long_jmp resumes the call of _set_jmp that filled the context: every register, the six status flags and the floating-point image, rax = val, rsp at the macro's pushed slot; memory changes only in two slots of the old stack |
| `Jump.RoundTrip` | 2018-fibers/src/jmp.h:32-38 | What _set_jmp leaves in the context is what _long_jmp needs, however the rest of memory and the registers changed in between |
| `Jump.SwitchRestoresAll` | 2018-fibers/src/ult.h:24-28 | With val = the saved rax nothing is lost |
| `Jump.FlagsRestored` | 2018-fibers/src/jmp.S:116-119 | addb 0x7f and sahf restore all six flags from the word lahf and seto made |
| `Jump.AddFlagsExact` | 2018-fibers/src/jmp.S:118 | The flags an addition leaves: OF and CF tell sums that are wrong when read as signed and as unsigned |
| `Jump.FlagsInAx` | 2018-fibers/src/jmp.S:29-32 | lahf and seto put the flags into two separate bytes |
| `Numerical.UpdateExact` | 2018-fibers/src/numerical.c:22-23 | The update of a half never overflows 32 bits, keeps non-zero halves non-zero, and is x/65536 modulo a*65536-1 |
| `Numerical.Congruent` | 2018-fibers/src/numerical.c:22-23 | After n updates x_n * 65536^n is congruent to x_0 |
| `Numerical.NeverMerge` | 2018-fibers/src/numerical.c:22-23 | Different halves up to the modulus stay different for ever |
| `Numerical.MergeBeyond` | 2018-fibers/src/numerical.c:22-23 | The bound is sharp: the number after the modulus merges with 1 in one step |
| `Numerical.HalvesIndependent` | 2018-fibers/src/numerical.c:15-23 | A non-zero seed is never replaced again; its halves run independently |
| `Numerical.UpperHalfIdle` | 2018-fibers/src/numerical.c:15-23 | From a seed below 2^32, and for all results of random(), zero included, the upper half is zero for ever: only one of the two generators runs |
| `Numerical.LowerHalfRuns` | 2018-fibers/src/numerical.c:15-22 | Seeded by a non-zero result of random(), the lower half after n draws is that result updated n times |
| `Numerical.StreamsDiffer` | 2018-fibers/src/numerical.c:15-26 | Threads seeded differently by random() never draw the same number in the same step |
| `Numerical.ValueBounds` | 2018-fibers/src/numerical.c:25-26 | The result is strictly between 0 and 1 for every seed |
| `Numerical.ValueIsFraction` | 2018-fibers/src/numerical.c:25-26 | The result is the 32-bit number plus one over 2^32, but for less than 4.7e-10 |
| `Numerical.EachHalfShows` | 2018-fibers/src/numerical.c:26 | Seeds that differ in one half only give different 32-bit numbers, whichever half it is |
| `Numerical.Generator.Random` | 2018-fibers/src/numerical.c:11-27 | Computes the next seed in place and the value of it |
| `Numerical.Generator.Expent` | 2018-fibers/src/numerical.c:30-37 | Exits exactly on a negative mean; otherwise non-negative, positive for a positive mean |

## Left out

- CalendarRuns.RefinesPlainQueue: compares multisets of nodes; the order among equal priorities is not claimed, since re-insertion during sampling changes it.
- CalendarQueue.CalQueue.Put: requires a non-negative priority, as every legal put has. C files a priority between -cwidth and 0 in bucket 0; a lower one, or that one after a resize to a smaller width, gets a bucket number before the array unless its virtual bucket is a multiple of nbuckets (`CalendarSurvival.BucketNumbers`). Overflow of `(int)`, rounding, infinities and NaN of `double` are not modelled, and the `long long` bound of the direct search plays no part because its first comparison does not use it.
- CalendarQueue.CalQueue.Resize: reports an unusable width (zero, negative or 0/0) instead of going on with it; C then divides by zero, converts NaN to int or indexes before the bucket array, which has no defined outcome to model.
- CalendarQueue.CalQueue.InsertInto: a bucket is a sequence, not a chain of `next` pointers; allocation and freeing of nodes are not modelled.
- FiberListModule.ListProcess.FibSwitchTo: the list of fibers is a sequence of element objects, not a chain of `next` pointers; the global lock makes each call one step.
- FiberModule.Process.FibSwitchTo: the return-value register, which the system call itself overwrites, is not told apart from the other saved registers.
- FiberTable.StepKeepsOwnership: conversion and creation are atomic; `last_fib_id` is incremented without a lock in the code, and racing creations are not modelled.
- KernelSwitch.Linearizable: finding a fiber in the hash table is part of the step before.
- KernelProgress.CanReturnExactly: a waiting thread takes no step until the lock is free; `synchronize_rcu` and the RCU read lock around the call are taken not to block.
- UltProtocol.OneHolder: voluntary switches only, not the SIGALRM handler; creation happens in the main thread before `init_complete`; contexts are two halves saved and loaded in two steps, and the overlap of stacks between unlock and jump is not modelled.
- Fls.Isolation: the switch is one step; values are not bounded to 64 bits, since they are only copied.
- FlsModule.Process.FibSwitchTo: of the switch only the runner is kept, not registers, counters and locks.
- Gsm.CellAgreement: counters are unbounded; signal power, fading and the printed statistics are left out.
- GsmProgram.Simulation.MainLoop: runs for a finite list of random times; `GsmTimes.Simulate` draws them in the loop, without the draws that signal power and fading take in between; the two fiber-local slots in which main_loop keeps queue and state are the fields of the object; the shared counters after the loop are left out.
- GsmProgram.Simulation.ProcessEvent: an event leaves the heap when the queue hands it back, not after it was processed.
- Jump.SetJmp: memory is addressed by aligned quadwords; the macro's own push and pop of rdi are preconditions and conclusions, not instructions.
- Numerical.Generator.Expent: the logarithm is assumed negative on (0, 1); rounding of `double` is not modelled.
- kprobe handlers, /proc entries, device set-up, ioctl dispatch, copying from and to user space, the user library and its stacks: plumbing around the modelled core.
- fib_open, fib_release and the exit handler: one process record is assumed to live through a run.
- RCU, hash tables, kmalloc failures: maps from id to object, allocation succeeds.
- The storage calls of SviluppoHashTable/Module/Fiber.c, whose range checks never fail, and fls_alloc, fls_get and fls_set of ult.c, which ignore the fiber.
