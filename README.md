# schedsim in Dafny

schedsim is a discrete-event simulator for batch jobs on a cluster. A trace
of jobs is read from Slurm or LRZ accounting files. Each job is submitted to
the cluster at its submission time. A scheduler decides when each job starts
on the cluster's free nodes. Nodes may fail and come back, and electricity
is priced by hour. This project models the core of the simulator in Dafny
and proves properties of that model:

- **The event loop.** Events are `(time, kind, job)` triples in a priority
  queue. Submissions are batched for one second, then handed to the scheduler.
  The simulator starts what the scheduler returns. It draws failure times for
  running jobs and for idle nodes, and it keeps the free-node count up to date.
- **The scheduler family.**
  - FIFO and the two backfill schedulers: the bounded one and the
    conservative one, which protects the queue head's start.
  - The size-ordered and the length-ordered backfill schedulers.
  - The two shutdown schedulers, which put the nodes they cannot use to sleep.
  - The three price-aware schedulers. They compare the energy cost of starting
    the queue's head job now with the cost of every later window of their
    horizon. They hold the job back, and sleep, when a window is cheaper.
  - The factory that builds a scheduler from its name.
- **Jobs, the failure model and the energy price models.** The energy models
  are fixed price, day/night table, hourly table and hourly stock price. Each
  charges an interval hour by hour.
- **The trace reader's field parsers, row checks and job-list filter.**

The model takes the source's own form.

- **Objects.** Objects whose fields the source changes are Dafny classes with
  `modifies` clauses:
  - the cluster's free-node counter;
  - the schedulers' queue, release projection and sleeping-node count;
  - the energy model's first timestamp.
- **Loops.** Loops are `while` loops with invariants. Each is proved against a
  pure function of the old state. The admission scans, the price-window
  searches, the hourly charging loop, the event loop and the reader's filter
  are all done this way.
- **Pure logic.** Pure logic is functions with lemmas.

Python's class-level lists become per-instance fields. The scheduler
hierarchy becomes one `Scheduler` class tagged with the scheduler's kind.
The methods overridden in the source are separate methods, and the
simulator dispatches over them.

The model follows the code in a few spots where the code differs from a plain
reading of its design:

- **Window edges.** The price-aware long-job search adds the *cheaper* of a
  window's first-hour and last-hour edge costs. The first window always takes
  the last-hour edge. This is not a pessimistic bound.
- **The cost of starting now.** When the seconds left in the current hour
  exceed the run's remainder, only the remainder is charged, however many whole
  hours the run has.
- **The release projection.** The "purge" keeps dropping leading entries while
  they end *after* the current time. It stops at the first one that has already
  ended.
- **The sleep request.** The decision to sleep is a sum type, not a dummy job.
- **The batching timer.** At most one batching timer is *not* an invariant of
  the loop. A sleep request queues a scheduler timer (simulator.py:144). When
  that timer fires it clears the batching flag (line 131) even if a batching
  timer is still queued, so a later submission can queue a second one. The
  model states what each event does to the flag and the queue (`Timers`) and
  requires only that an armed flag has some timer queued.
- **Slurm durations.** A field without a day part, such as `12:30:00`,
  matches the duration regex by backtracking. All hour digits but the last are
  read as days, and the last as the hour. With a single hour digit the day
  group is unmatched, and `int(None)` raises `TypeError`.
  `JobReader.SlurmNoDayForm` and `JobReader.SlurmSingleDigitForm` state this.

Inputs the code obtains from the environment are parameters of the model:

- the wall-clock reading of a timestamp (`Clock`);
- the random failure and repair draws, as streams `nat -> nat` and `nat -> int`;
- the energy model's price lookup, as `priceAt: int -> real`.

Times are whole seconds (`int`). Prices, power and costs are exact `real`s.

## Model

| member | source | states |
|---|---|---|
| Common.SeqMin | schedSim/jobs.py:45 | the minimum is an element and no element is smaller |
| Common.SeqMax | schedSim/jobs.py:46 | the maximum is an element and no element is larger |
| Common.SecondsToFullHour | schedSim/schedulerEE.py:176 | the seconds to the next full hour lie in 1..3600, and are 3600 exactly when minute and second are zero |
| Configuration.Cluster.constructor | data/test-trace/configuration.py:1-28 | a cluster holds its free-node count and its hardware constants |
| Jobs.NewJob | schedSim/jobs.py:34-59 | construction fails on an empty duration list; it succeeds exactly when the constructor's assertions hold; a built job keeps its id, nodes and durations, has end time 0, and its min/max bound every duration |
| Jobs.PowerIgnoresPState | schedSim/jobs.py:61-66 | the requested P-state does not change the power: the code always reads P-state 4 |
| Jobs.PowerConsumed | schedSim/jobs.py:61-66 | the measured average power when present, else nodes times (P-state-4 CPU power times processors plus node power) |
| Jobs.PowerGrowsWithNodes | schedSim/jobs.py:61-66 | without a measured power, more nodes draw at least as much when a node's draw is not negative |
| Jobs.SumNodesNonNegative | schedSim/jobs.py:56 | the node total of valid jobs is at least their number, since each has a node |
| FailureModel.CheckWhenJobFails | schedSim/failureModel.py:7-13 | a failure time is the earliest per-node draw and lies before the job's end; there is no failure exactly when every draw is at least the runtime |
| FailureModel.TimeUntilNodeIsBack | schedSim/failureModel.py:15-17 | the repair time is the draw or the minimum repair time, and at least both |
| Events.Code | schedSim/simulator.py:9-16 | the six event kinds have the codes 1..6 |
| Events.CodeInjective | schedSim/simulator.py:9-16 | different kinds have different codes |
| Events.EventLeTotal | schedSim/simulator.py:82 | the tuple order on events (time, code, job id) is total |
| Events.EventLeTransitive | schedSim/jobs.py:75-76 | the tuple order is transitive |
| Events.Push | schedSim/simulator.py:46 | `heappush` adds one event |
| Events.PushMultiset | schedSim/simulator.py:95 | pushing adds exactly the new event to the queue's contents |
| Events.PushSorted | schedSim/simulator.py:144 | pushing keeps the queue in pop order |
| Events.PushEarliest | schedSim/simulator.py:165 | an event earlier than every queued one becomes the next one popped |
| Events.PopLeast | schedSim/simulator.py:82 | `heappop` returns an event no later than any queued one and leaves the rest in order |
| Events.PushTotal | schedSim/simulator.py:156-159 | the nodes held by queued events grow by what the pushed event holds |
| Events.PushCount | schedSim/simulator.py:110 | pushing raises the count of its kind by one and leaves other kinds' counts alone |
| Events.CountPositive | schedSim/simulator.py:94-96 | a kind's count is positive exactly when an event of that kind is queued |
| Events.AcceptedExactly | schedSim/simulator.py:42-46 | every job that fits the cluster is submitted as often as it appears; no larger job is |
| Events.AcceptedEmpty | schedSim/simulator.py:42-46 | nothing is submitted exactly when every job needs more nodes than the cluster has |
| Events.SubmissionsOf | schedSim/simulator.py:46 | every initial event is the submission of an accepted job at its submission time |
| Events.SubmissionsHas | schedSim/simulator.py:46 | every accepted job has its submission event |
| Events.SubmissionsCount | schedSim/simulator.py:42-46 | one event per accepted job |
| Sorting.Insert | schedSim/schedulerAdvanced.py:16 | one insertion step of the stable sort adds one element |
| Sorting.InsertSorted | schedSim/schedulerAdvanced.py:16 | inserting into a sorted sequence keeps it sorted and adds nothing else |
| Sorting.InsertMultiset | schedSim/schedulerAdvanced.py:16 | insertion adds exactly the element |
| Sorting.InsertKeepsGroups | schedSim/schedulerAdvanced.py:16 | an inserted element goes behind the elements with an equal key |
| Sorting.SortBySorted | schedSim/schedulerAdvanced.py:16 | `sort(key=...)` orders by the key |
| Sorting.SortByPermutation | schedSim/schedulerAdvanced.py:21 | the sort keeps every element as often as it occurs |
| Sorting.SortByStable | schedSim/schedulerAdvanced.py:58 | elements with equal keys keep their relative order |
| Text.TruncToInt | schedSim/jobReader.py:25 | `int(float)` truncates toward zero |
| Text.ParseInt | schedSim/schedulerEE.py:118 | `int(str)` succeeds exactly on surrounding whitespace around an optional sign followed by decimal digits |
| Text.IntNumeral | schedSim/schedulerEE.py:118 | a stripped numeral converts exactly when it is an optional sign followed by digits |
| Text.ParseFloat | schedSim/jobReader.py:18 | `float(str)` succeeds exactly on surrounding whitespace around an optional sign and then digits with at most one '.' and at least one digit; an integer numeral reads as the same number as under `int` |
| Text.RealNumeralForm | schedSim/jobReader.py:18 | a stripped numeral converts exactly when what follows its sign is a decimal numeral |
| Text.IntAsReal | schedSim/jobReader.py:18 | an integer numeral converts to the same number under `float` as under `int` |
| Text.SplitPieces | schedSim/jobReader.py:66 | `split` gives one piece more than there are delimiters, and no piece holds the delimiter |
| Text.JoinSplit | schedSim/jobReader.py:66 | joining the pieces with the delimiter gives the line back |
| Text.SplitJoin | schedSim/jobReader.py:66 | splitting fields without the delimiter, joined by it, gives the fields back |
| Text.TrimStart | schedSim/jobReader.py:168 | leading whitespace is removed and the rest kept |
| Text.TrimEnd | schedSim/jobReader.py:168 | trailing whitespace, such as a line's "\n", is removed and the rest kept |
| Text.Strip | schedSim/jobReader.py:168 | the stripped string neither starts nor ends with whitespace |
| Text.DotIndex | schedSim/jobReader.py:18 | the first '.' of a numeral, with none before it |
| Text.ParseDigits | schedSim/schedulerEE.py:456 | a decimal spelling converts back to its number under `int` and under `float` |
| Text.ParseDigitsLine | schedSim/jobReader.py:156-168 | a number followed by the line break a last field keeps still converts to that number |
| Text.StripDigits | schedSim/jobReader.py:168 | a digit string is its own strip |
| Text.StripDigitsLine | schedSim/jobReader.py:156-168 | digits followed by a line break strip to the digits |
| Text.DigitsRoundTrip | schedSim/schedulerEE.py:296 | the digits of a number read back as that number |
| Text.StrLessIrreflexive | schedSim/jobs.py:75-76 | no job id is less than itself |
| Text.StrLessTransitive | schedSim/jobs.py:75-76 | id order is transitive |
| Text.StrLessTotal | schedSim/jobs.py:75-76 | of two different ids one is less |
| Schedulers.Pick | schedSim/scheduler.py:28-29 | a job is started for its shortest run at P-state 4 |
| Schedulers.Picks | schedSim/scheduler.py:28-29 | one decision per picked job, each `Pick` of it in order |
| Schedulers.PicksNodes | schedSim/scheduler.py:58 | the decisions for a list of jobs occupy the jobs' total nodes |
| Schedulers.SchedulingDelay | schedSim/scheduler.py:11-13 | the batching delay is positive |
| Schedulers.CreateScheduler | schedSim/scheduler.py:240-265 | a known name yields the class of that name; the price-aware names need an integer argument, which becomes the horizon; other names fail |
| Schedulers.Horizon | schedSim/schedulerEE.py:118 | a price-aware class is built exactly when `int` accepts the argument, which becomes its horizon; otherwise the argument error |
| Schedulers.CreateSchedulerRoundTrip | schedSim/scheduler.py:240-262 | every class, with its horizon spelled in decimal, is built back from its own name |
| Schedulers.HorizonRoundTrip | schedSim/schedulerEE.py:118 | a price-aware class is built back from its own name and the decimal spelling of its horizon |
| Schedulers.CreateSchedulerList | schedSim/scheduler.py:263-265 | "list" fails like an unknown name |
| Schedulers.FitCountLongest | schedSim/scheduler.py:51-57 | FIFO admits the longest prefix that fits the free nodes: the prefix fits and one more job would not |
| Schedulers.CoverIndexFirst | schedSim/scheduler.py:185-190 | the head job's start is the first projected release that brings enough nodes |
| Schedulers.DelaysPriorFits | schedSim/scheduler.py:181-182 | a job that fits beside the head job is never held back |
| Schedulers.DelaysPriorOnlyIfLater | schedSim/scheduler.py:192-197 | a job is held back only when the head job's start is after the job would end |
| Schedulers.ResumeSkip | schedSim/scheduler.py:222-228 | a skipped job stays queued and the scan moves to the next index |
| Schedulers.ResumePick | schedSim/scheduler.py:230-232 | a started job leaves the queue, takes its nodes, and the scan stays at the same index |
| Schedulers.ResumeStop | schedSim/scheduler.py:217-227 | no free node, or a skip beyond the limit, ends the scan with the current state |
| Schedulers.ResumeDone | schedSim/scheduler.py:215 | the end of the queue ends the scan as exhausted |
| Schedulers.InterleavingMultiset | schedSim/scheduler.py:215-232 | the started and the remaining jobs together are the old queue |
| Schedulers.ScanAccounting | schedSim/scheduler.py:74-91 | a scan splits the queue, order-preserving, into started and remaining jobs; the started ones take exactly the nodes no longer free, never more than were free |
| Schedulers.ScanSplits | schedSim/scheduler.py:215-232 | the started and remaining jobs are an interleaving of the queue |
| Schedulers.ScanNodes | schedSim/scheduler.py:81-90 | the free count falls by the started jobs' nodes and stays non-negative |
| Schedulers.ScanExits | schedSim/scheduler.py:76-86 | a scan stops with no free node, after skipping more jobs than the limit, or at the queue's end; a plain scan then leaves only jobs too big for the free nodes |
| Schedulers.PurgeCount | schedSim/scheduler.py:166-171 | the purge drops exactly the leading projection entries that end after `time` |
| Schedulers.ReleasesOfPicks | schedSim/scheduler.py:199-201 | every started job is projected to release its nodes at start plus runtime |
| Schedulers.Scheduler.constructor | schedSim/scheduler.py:34-39 | a new scheduler has an empty queue and projection and no sleeping node |
| Schedulers.Scheduler.SetCluster | schedSim/schedulerEE.py:110-112 | stores cluster and prices; the price-aware ones spread the infrastructure power over the nodes |
| Schedulers.Scheduler.NewPendingJobs | schedSim/scheduler.py:38-39 | new jobs join the end of the queue in order |
| Schedulers.Scheduler.JobAbortedWithErrors | schedSim/scheduler.py:41-43 | a failed job rejoins at the front |
| Schedulers.Scheduler.TryToScheduleFIFO | schedSim/scheduler.py:45-59 | starts exactly the longest fitting prefix of the queue and leaves the rest queued |
| Schedulers.Scheduler.ScanPending | schedSim/scheduler.py:215-232 | the scan loop computes the pure scan: started jobs, remaining queue, free count and exit |
| Schedulers.Scheduler.SkipsAt | schedSim/scheduler.py:222 | a job is skipped when it does not fit, or is not first and would delay the head job |
| Schedulers.Scheduler.DelaysExecutionOfPriorJob | schedSim/scheduler.py:173-197 | false with an empty queue, otherwise the conservative test against the head job and the projection |
| Schedulers.Scheduler.PurgeExpiredJobs | schedSim/scheduler.py:166-171 | the projection loses exactly its purged prefix |
| Schedulers.Scheduler.DispatchJobs | schedSim/scheduler.py:199-201 | the started jobs' releases join the projection |
| Schedulers.Scheduler.TryToScheduleScan | schedSim/scheduler.py:66-91 | the bounded backfill: the scan with skip limit 1000 that stops at zero free nodes |
| Schedulers.Scheduler.TryToScheduleBackfill | schedSim/scheduler.py:203-234 | conservative backfill over the sorted, purged projection; the started jobs are projected unless the scan ran out of nodes |
| Schedulers.StartableNodes | schedSim/simulator.py:148-149 | startable decisions never give nodes back |
| Schedulers.InterleavingValid | schedSim/scheduler.py:231 | both parts of a split of valid jobs are valid |
| Schedulers.ScanStartable | schedSim/scheduler.py:74-91 | a scan over valid jobs starts valid jobs within the free nodes and keeps valid jobs queued |
| Schedulers.FitStartable | schedSim/scheduler.py:51-58 | FIFO's admitted prefix fits the free nodes |
| Schedulers.SortProjectionSorted | schedSim/scheduler.py:212 | `sort()` of the projection orders it and keeps its entries |
| SchedulersAdvanced.SortedDescending | schedSim/schedulerAdvanced.py:16 | sorting by the negated key with `reverse=True` puts larger (nodes, length) first |
| SchedulersAdvanced.SortQueue | schedSim/schedulerAdvanced.py:16 | the sorted queue is descending, a permutation of the old queue, and stable for equal keys |
| SchedulersAdvanced.NewPendingJobsOrdered | schedSim/schedulerAdvanced.py:14-16 | new jobs are added and the queue sorted again |
| SchedulersAdvanced.JobAbortedOrdered | schedSim/schedulerAdvanced.py:18-21 | a failed job is appended and the queue sorted again |
| SchedulersAdvanced.InterleavingSorted | schedSim/schedulerAdvanced.py:46 | both parts of a split of a sorted queue stay sorted |
| SchedulersAdvanced.TryToScheduleOrdered | schedSim/schedulerAdvanced.py:23-48 | the bounded scan with skip limit 100; started jobs come in descending order; the queue stays sorted and loses only the started jobs |
| PriceWindows.HoursNeeded | schedSim/schedulerEE.py:164 | `int(d / 3600)`: whole hours, truncated toward zero |
| PriceWindows.WeightedSum | schedSim/schedulerEE.py:181-182 | the loop sums price times factor over the hour range |
| PriceWindows.WeightedFlat | schedSim/schedulerEE.py:218-219 | under a flat price the sum is hours times price times factor |
| PriceWindows.NowCostFlat | schedSim/schedulerEE.py:176-186 | under a flat price the now-cost is price times charged seconds times power, discounted by 0.1 percent |
| PriceWindows.NowCostOf | schedSim/schedulerEE.py:176-186 | the loop computes the now-cost |
| PriceWindows.IdleBeforeZero | schedSim/schedulerEE.py:195 | waiting costs nothing without idle power |
| PriceWindows.IdleBeforeGrows | schedSim/schedulerEE.py:205 | with non-negative prices waiting longer never costs less |
| PriceWindows.ShortSearch | schedSim/schedulerEE.py:198-205 | the short-job loop computes the pure search over all windows |
| PriceWindows.ShortWindowStep | schedSim/schedulerEE.py:201-205 | one window of the short search extends the search by that window |
| PriceWindows.ShortBestCheapest | schedSim/schedulerEE.py:198-205 | the short search picks the first cheapest window, and moves the job only when that is strictly cheaper than now |
| PriceWindows.WindowCost | schedSim/schedulerEE.py:218-235 | a window's running cost and the edge the code takes |
| PriceWindows.LongStoppedStays | schedSim/schedulerEE.py:214-215 | once the search stops its choice is final |
| PriceWindows.LongWindowStep | schedSim/schedulerEE.py:207-245 | one window of the long search: stop, or price the window |
| PriceWindows.LongSearch | schedSim/schedulerEE.py:207-245 | the long-job loop computes the pure search |
| PriceWindows.LongSearchCheapest | schedSim/schedulerEE.py:207-245 | the job moves only to a strictly cheaper window, the first cheapest priced, with the code's edge; the search stops only where waiting alone cost more |
| PriceWindows.FirstMinIndexLowest | schedSim/schedulerEE.py:527-530 | the index found has the lowest price after hour 0, and the first such |
| PriceWindows.CheapestHour | schedSim/schedulerEE.py:525-530 | the loop from infinity finds that first cheapest hour and its price |
| PriceWindows.EnforceShortChoice | schedSim/schedulerEE.py:524-534 | the enforcing short choice is now, or the cheapest hour when strictly cheaper than now |
| PriceWindows.EnforceLongSearch | schedSim/schedulerEE.py:536-564 | the enforcing long loop computes the pure search |
| PriceWindows.EnforceBestShape | schedSim/schedulerEE.py:536-564 | the enforcing long choice is now or a priced window with the code's edge |
| PriceWindows.EnforceBestNearCheapest | schedSim/schedulerEE.py:560-562 | no window undercuts the choice by more than the 0.1 percent margin |
| PriceWindows.ChoicesFeasible | schedSim/schedulerEE.py:228-240 | the choices lie inside the horizon, and the first window is aligned to its last hour |
| PriceWindows.DelayBounds | schedSim/schedulerEE.py:247-254 | the sleep is positive and ends within the horizon |
| SchedulersEE.ScanBalance | schedSim/schedulerEE.py:30-50 | the scan's free count is what the started jobs did not take, and zero when it ran out |
| SchedulersEE.ShutdownConserves | schedSim/schedulerEE.py:12-55 | every node is awake or asleep, and the awake ones are exactly the started jobs' nodes |
| SchedulersEE.ShutdownScanConserves | schedSim/schedulerEE.py:30-55 | the same node balance over the woken nodes |
| SchedulersEE.ShutdownSplitsQueue | schedSim/schedulerEE.py:30-50 | the started and remaining jobs split the queue, keeping its order |
| SchedulersEE.ShutdownScanSplits | schedSim/schedulerEE.py:30-50 | the same split for the scan part |
| SchedulersEE.ConservativeScan | schedSim/schedulerEE.py:27-50 | the projection is sorted and purged, then the conservative scan runs |
| SchedulersEE.ShutdownStartable | schedSim/schedulerEE.py:12-55 | starts valid jobs, keeps valid jobs queued, no negative sleeping count |
| SchedulersEE.ShutdownScanSound | schedSim/schedulerEE.py:30-55 | the same for the scan part |
| SchedulersEE.TryToScheduleShutdown | schedSim/schedulerEE.py:12-55 | the method leaves the state of the pure shutdown round |
| SchedulersEE.ShutdownDelayConserves | schedSim/schedulerEE.py:63-97 | node balance, projection untouched |
| SchedulersEE.ShutdownDelayLeavesBig | schedSim/schedulerEE.py:79-94 | unless the skip limit was hit, every job left is too big for the nodes put to sleep |
| SchedulersEE.ShutdownDelayStartable | schedSim/schedulerEE.py:63-97 | starts valid jobs, keeps valid jobs queued |
| SchedulersEE.TryToScheduleShutdownDelay | schedSim/schedulerEE.py:63-97 | the method leaves the state of the pure shutdown-delay round |
| SchedulersEE.HorizonPrices | schedSim/schedulerEE.py:142-144 | one price per hour of the horizon, from `time` on |
| SchedulersEE.Horizon | schedSim/schedulerEE.py:320-322 | the loop collects those prices |
| SchedulersEE.BuildContext | schedSim/schedulerEE.py:468-472 | the context holds the variant, horizon prices and seconds to the full hour |
| SchedulersEE.WaitForBounds | schedSim/schedulerEE.py:167 | a job is held back only when allowed, and positively, within the horizon |
| SchedulersEE.WaitForOnlyIfCheaper | schedSim/schedulerEE.py:198-249 | a job is held back only for a window strictly cheaper than starting now |
| SchedulersEE.DecideWait | schedSim/schedulerEE.py:160-260 | the decision code computes the pure hold-back |
| SchedulersEE.PriceRunPrefix | schedSim/schedulerEE.py:149-269 | the admission starts a prefix of the queue, none worth holding back, with exactly the nodes no longer free |
| SchedulersEE.PriceRunShape | schedSim/schedulerEE.py:149-269 | the started jobs are a prefix of the queue and the rest is what follows it |
| SchedulersEE.PriceRunFree | schedSim/schedulerEE.py:149-269 | the nodes left free are the free nodes less those of the started jobs, never negative |
| SchedulersEE.PriceRunHeld | schedSim/schedulerEE.py:149-269 | no started job was one the decider wanted held back |
| SchedulersEE.PriceRunExit | schedSim/schedulerEE.py:154-158 | the admission stops with no free node, a head that does not fit, an empty queue, or a held-back head |
| SchedulersEE.PriceRunDelay | schedSim/schedulerEE.py:249-260 | a requested sleep is positive and within the horizon |
| SchedulersEE.PriceRunNodes | schedSim/schedulerEE.py:267 | started nodes are the nodes no longer free |
| SchedulersEE.PriceRunBalanced | schedSim/schedulerEE.py:267 | the admission's node balance |
| SchedulersEE.SettleBalanced | schedSim/schedulerEE.py:271-272 | putting free nodes to sleep conserves nodes |
| SchedulersEE.PriceRunSane | schedSim/schedulerEE.py:149-269 | valid jobs started and kept, positive sleeps only |
| SchedulersEE.SettleSane | schedSim/schedulerEE.py:255-260 | settling keeps the decisions startable |
| SchedulersEE.PriceAdmit | schedSim/schedulerEE.py:149-269 | the admission loop computes the pure admission |
| SchedulersEE.PriceLoop | schedSim/schedulerEE.py:327-441 | loop then settle leaves the pure admission's state |
| SchedulersEE.Park | schedSim/schedulerEE.py:584-585 | after the loop the free nodes sleep, and a held-back head adds the sleep request and its end time |
| SchedulersEE.AdmitConserves | schedSim/schedulerEE.py:481-586 | node balance over the woken nodes, projection untouched |
| SchedulersEE.SettleRunBalanced | schedSim/schedulerEE.py:481-586 | for any hold-back rule, the admission and the sleep that follows it conserve the woken nodes and leave the projection untouched |
| SchedulersEE.AdmitSound | schedSim/schedulerEE.py:481-586 | the admission is carried out safely |
| SchedulersEE.PriceShutdownConserves | schedSim/schedulerEE.py:122-273 | the price-aware round conserves nodes |
| SchedulersEE.PriceShutdownStartable | schedSim/schedulerEE.py:300-441 | the price-aware round is carried out safely |
| SchedulersEE.TryToSchedulePriceAware | schedSim/schedulerEE.py:122-273 | the method leaves the state of the pure price-aware round (both variants) |
| SchedulersEE.EnforceConserves | schedSim/schedulerEE.py:460-586 | idle rounds change nothing; other rounds conserve nodes |
| SchedulersEE.EnforceStartable | schedSim/schedulerEE.py:460-586 | the enforcing round is carried out safely |
| SchedulersEE.MakeContextValid | schedSim/schedulerEE.py:467-472 | the built context is well formed |
| SchedulersEE.TryToScheduleEnforce | schedSim/schedulerEE.py:460-586 | the method leaves the state of the pure enforcing round |
| Simulation.FIFORound | schedSim/scheduler.py:45-59 | a FIFO round returns startable decisions within the free nodes |
| Simulation.ScanRound | schedSim/schedulerAdvanced.py:23-48 | the same for the bounded and the ordered backfill |
| Simulation.BackfillRound | schedSim/scheduler.py:203-234 | the same for the conservative backfill |
| Simulation.ShutdownSafe | schedSim/schedulerEE.py:12-55 | the shutdown round is safe and conserves nodes |
| Simulation.ShutdownDelaySafe | schedSim/schedulerEE.py:63-97 | the shutdown-delay round is safe and conserves nodes |
| Simulation.PriceShutdownSafe | schedSim/schedulerEE.py:300-441 | the price-aware round is safe and conserves nodes |
| Simulation.EnforceSafe | schedSim/schedulerEE.py:460-586 | the enforcing round is safe and conserves nodes |
| Simulation.ShutdownRound | schedSim/schedulerEE.py:12-55 | startable decisions within the free nodes; awake plus sleeping unchanged |
| Simulation.ShutdownDelayRound | schedSim/schedulerEE.py:63-97 | the same |
| Simulation.PriceAwareRound | schedSim/schedulerEE.py:122-273 | the same |
| Simulation.EnforceRound | schedSim/schedulerEE.py:460-586 | the same |
| Simulation.RunScheduler | schedSim/simulator.py:135 | the decisions and the scheduler's new queue, free count, sleeping count, release projection and sleep end are exactly `Round` of the old state for its kind; they can be started within the free nodes, and no node is gained or lost |
| Simulation.HandOver | schedSim/simulator.py:129 | the batch is appended to the queue, which the size- and length-ordered schedulers then sort by their key (schedulerAdvanced.py:14-16, 56-58; scheduler.py:38-39) |
| Simulation.Requeue | schedSim/simulator.py:119 | a failed job goes back to the front of the queue, or is appended and the queue sorted for the ordered schedulers (scheduler.py:41-43; schedulerAdvanced.py:18-21, 60-63) |
| Simulation.Draws | schedSim/failureModel.py:8 | one draw per node |
| Simulation.StartOne | schedSim/simulator.py:137-159 | a sleep arms a timer after its delay; a job takes its nodes and is followed by one event (`Follows`) carrying the job with its start and end times: its completion at start plus runtime or, only with the failure model on, an earlier abort |
| Simulation.StartJobs | schedSim/simulator.py:137-159 | started jobs take exactly their nodes from the free count, which stays non-negative; the queue gains exactly one event per decision and nothing else, the `Follows` event of that decision, in the decisions' order; `started` is the dispatched jobs in order, each with start time `time` and its end event's time (`Started`); each end event holds the job's nodes |
| Simulation.PushFacts | schedSim/simulator.py:156-159 | a push keeps the order and adds one event |
| Simulation.StillQueued | schedSim/simulator.py:137-159 | end events stay queued as others are added |
| Simulation.CheckIdleFailure | schedSim/simulator.py:161-165 | an idle-node failure is queued only before the next event |
| Simulation.Setup | schedSim/simulator.py:42-49 | the initial queue is sorted and holds one submission per fitting job |
| Simulation.InitialEventsOk | schedSim/simulator.py:42-46 | initial events are submissions of valid jobs holding no nodes |
| Simulation.Handle | schedSim/simulator.py:91-131 | the effects of `Account` and `Timers` together |
| Simulation.Account | schedSim/simulator.py:99-131 | a completion frees the job's nodes, an idle failure takes one node, an abort frees all but one and requeues the job, a repair returns one node, a scheduler timer hands the batch over; a submission changes nothing here |
| Simulation.Timers | schedSim/simulator.py:91-131 | a submission joins the batch and queues a timer one scheduling delay later exactly when none is armed, then arms the flag; both failure kinds queue the node's repair at `time` plus the drawn repair time and use up one draw; a timer empties the batch and clears the flag; the queue stays sorted and holds the failed node |
| Simulation.QueuedKeeps | schedSim/simulator.py:95-121 | the timer and repair pushes keep the queue sorted, not before `time` and free of idle failures |
| Simulation.QueuedCounts | schedSim/simulator.py:95-121 | a repair event holds the node a failure takes; a timer is added exactly when a batch starts |
| Simulation.Pushed | schedSim/simulator.py:95 | a push keeps the queue invariant |
| Simulation.Reschedule | schedSim/simulator.py:133-159 | the decisions and the scheduler's new state are `Round` of the state before it, the started jobs' nodes leave the free count, the node total is kept, every started job's end is queued, and the queue and started jobs are as `StartJobs` states (`Started`) |
| Simulation.IdleCheck | schedSim/simulator.py:161-165 | the idle check keeps the node total; without the error model nothing changes |
| Simulation.AfterEvent | schedSim/simulator.py:133-165 | after a submission nothing changes; after an idle failure only the idle-node check runs; otherwise `Round` of the given state is applied and its decisions are started as `StartJobs` states, then the idle-node check may add a failure (`StartedInto`) |
| Simulation.Step | schedSim/simulator.py:80-165 | a submission or an idle failure runs no round; every other kind runs `Round`, with `jobCompleted` set exactly for a completion, on the state the event left; the queue left by the event (`Queued`) gains one `Follows` event per decision and, only with the failure model on, at most the idle-node failure; `started` is the dispatched jobs in order (`StartedInto`); the timer flag and the repair draws change as in `Timers`; the node total and the queue invariant are kept |
| Simulation.FirstSubmission | schedSim/simulator.py:66-67 | the start time is the earliest submission of a fitting job |
| Simulation.InitialEmpty | schedSim/simulator.py:62-64 | the program stops exactly when no job fits |
| Simulation.EventLoop | schedSim/simulator.py:78-166 | time never goes back; a drained queue returns every node; completing all jobs stops the loop |
| Simulation.Simulate | schedSim/simulator.py:34-172 | the cluster's node count is restored; a zero-node cluster ends in the division error and a trace with no fitting job in the exit; a run starts at the earliest fitting submission; a drained run returns every node, free or asleep; a run that completes stops with every job done |
| EnergyCosts.HourSplitCovers | schedSim/energyCosts.py:43-61 | the hour slots partition the interval: first slot to the full hour, whole hours, then the remainder |
| EnergyCosts.NextSlotKey | schedSim/energyCosts.py:53-56 | advancing the hour key walks the slots' keys, modulo 24 for the clock-hour table |
| EnergyCosts.SlotCostAdditive | schedSim/energyCosts.py:48-59 | charging two spans at one price is charging their sum |
| EnergyCosts.ChargeFirstMissing | schedSim/energyCosts.py:45-61 | the first hour missing from the table is the `KeyError` raised |
| EnergyCosts.ChargeKeyError | schedSim/energyCosts.py:45-61 | a charge fails only with a `KeyError` for a key that has no price |
| EnergyCosts.ChargeStep | schedSim/energyCosts.py:55 | each slot adds price times power times seconds |
| EnergyCosts.ChargeConstant | schedSim/energyCosts.py:45-61 | one price for every slot charges the whole interval at that price |
| EnergyCosts.ChargeNonNegative | schedSim/energyCosts.py:63 | no negative price, power or slot means a defined, non-negative charge |
| EnergyCosts.BucketOfTime | schedSim/energyCosts.py:94 | the stock-price bucket is the 1-based hour since the first event |
| EnergyCosts.QuotedPrice | schedSim/energyCosts.py:14-95 | each model's `timestampPrice`: the base model quotes 0, the fixed model 0.145, the hourly model the price of the clock hour or a `KeyError` for it; the stock model fails without a first timestamp, and from the first timestamp on it quotes the price of the 1-based hour since then, or a `KeyError` for that hour |
| EnergyCosts.EnergyCostModel.TimestampPrice | schedSim/energyCosts.py:14-95 | the object's `timestampPrice`: only the table models can fail, and a quoted price is 0, the fixed price, or a price from the model's table |
| EnergyCosts.IntervalCost | schedSim/energyCosts.py:8-126 | each model's `energyCosts`: the base model charges 0 and the fixed model price times power times seconds, per kWh; an hourly charge is never negative; the stock model fails its assertion on negative power, then on a missing first timestamp (`TypeError`), then on an empty interval; a `KeyError` names a key with no price |
| EnergyCosts.CostWithinHour | schedSim/energyCosts.py:60-61 | an interval within one hour costs the quoted price times power times seconds |
| EnergyCosts.FlatHourlyIsFixed | schedSim/energyCosts.py:25-28 | a flat hourly table charges like the fixed model at that price |
| EnergyCosts.DayNightTable | schedSim/energyCosts.py:76-80 | the day price from 6 to 22, the night price at other hours |
| EnergyCosts.DayNightCostNonNegative | schedSim/energyCosts.py:63 | the day/night model never trips its assertion |
| EnergyCosts.EnergyCostModel.constructor | schedSim/energyCosts.py:84 | no first timestamp yet |
| EnergyCosts.EnergyCostModel.InitTimestamp | schedSim/energyCosts.py:5-6 | records the first timestamp |
| EnergyCosts.EnergyCostModel.EnergyCosts | schedSim/energyCosts.py:97-126 | each model's `energyCosts` computes the pure interval cost, errors included |
| EnergyCosts.HourlyEnergyCosts | schedSim/energyCosts.py:37-65 | the hourly model's `energyCosts` is the pure interval cost of the hourly model, its assertion included |
| EnergyCosts.StockEnergyCosts | schedSim/energyCosts.py:97-126 | the stock-price model's `energyCosts` is the pure interval cost of that model, its assertions and the missing first timestamp included |
| EnergyCosts.HourlyCharge | schedSim/energyCosts.py:45-61 | the hourly loop charges the slots at their keys' prices |
| EnergyCosts.WholeHours | schedSim/energyCosts.py:50-54 | the loop over the whole hours adds one hour's charge per key and stops at the first key with no price |
| EnergyCosts.FullHours | schedSim/energyCosts.py:109-117 | the first slot and the whole hours, ending at the right key |
| EnergyCosts.CreateModel | schedSim/energyCosts.py:128-138 | "FixedPrice", "DayNightPrice" and "HourlyStockPrice" each yield their own model, the last with its file argument; "list" and every other name fail with "No valid model defined!" |
| JobReader.ParseIntVal | schedSim/jobReader.py:14-25 | missing or empty is -1 |
| JobReader.ParseIntValPlain | schedSim/jobReader.py:25 | a plain numeral reads as its value |
| JobReader.ParseIntValScaled | schedSim/jobReader.py:17-24 | K, M, G, T scale by 10^3, 10^6, 10^9, 10^12 |
| JobReader.ParseNodeMemory | schedSim/jobReader.py:27-37 | anything but the four suffixes gives -1 |
| JobReader.ParseNodeMemoryScaled | schedSim/jobReader.py:29-36 | per-core requests scale by tasks per node, per-node ones do not, in MiB or GiB |
| JobReader.DurationOfMatch | schedSim/jobReader.py:46-50 | a match's groups are digits and give the duration |
| JobReader.SlurmDayForm | schedSim/jobReader.py:45-50 | `D-H:M:S` is D days, H hours, M minutes and S seconds |
| JobReader.SlurmNoDayForm | schedSim/jobReader.py:45-50 | without a day, the hour digits but the last count as days |
| JobReader.SlurmSingleDigitForm | schedSim/jobReader.py:50 | a single-digit hour without a day raises `TypeError` |
| JobReader.ParseSlurmDuration | schedSim/jobReader.py:39-50 | "UNLIMITED" and "Partition_Limit" pass through; any other field outside the pattern's form is -1; a field of the form whose day group stays unmatched (a leading '-', or one hour digit without a day) raises `TypeError`; every other field of the form is a non-negative number of seconds |
| JobReader.ElapsedFormMatches | schedSim/jobReader.py:45-46 | the pattern search succeeds exactly on the fields of the form: optional digits, an optional '-', then digits ':' digits ':' digits, then the end or a final line break |
| JobReader.FromShape | schedSim/jobReader.py:45-46 | every match lies on the form's shape |
| JobReader.FormMatches | schedSim/jobReader.py:45-46 | every field of the form is matched |
| JobReader.MatchedDay | schedSim/jobReader.py:45-50 | the day group of a match stays unmatched exactly when the field starts with '-' or with one hour digit and ':' |
| JobReader.NormaliseState | schedSim/jobReader.py:85-99 | CANCELLED· becomes CANCEL, else FAILED· becomes FAIL, else COMPLETED· becomes OK; RUNNING and PENDING drop the row; other states keep their name |
| JobReader.ClassifySlurmRow | schedSim/jobReader.py:69-128 | an unreadable elapsed field fails the row; otherwise a non-numeric job id is a job step with that elapsed time, a running or pending row is dropped, a node count of at most 0 is invalid, and a row is kept exactly when its remaining modelled fields all parse (the Submit and Start dates are not read, see "Left out"): the record holds the job id, the node count, the task count (or 1 for -1), the memory for that count, both durations and the energy, each exactly as parsed |
| JobReader.ClassifySlurmLine | schedSim/jobReader.py:64-71 | a stripped line without exactly 19 delimiters is invalid; a line with twenty columns is classified on its job id, node count, task count, memory request, elapsed time, time limit, energy and state columns |
| JobReader.SlurmLineOfFields | schedSim/jobReader.py:64-71 | a line joined from twenty fields without the delimiter is classified on exactly those fields |
| JobReader.EmptyTaskCountIsOne | schedSim/jobReader.py:111-112 | an empty task count means one task per node |
| JobReader.ClassifyLrzRow | schedSim/jobReader.py:156-177 | submissions are clamped to 2014-01-01; removed short jobs and empty jobs are skipped, and every other row is exactly `LrzJob` of the clamped time, the elapsed time, the node field and the power `float` reads from the last field with its line break, or 0 |
| JobReader.LrzJob | schedSim/jobReader.py:177 | a node count `int` rejects fails the row; otherwise the row succeeds exactly when the job constructor accepts that node count as both node counts, and the result is that job or that constructor's error; a built job has the given submission time, the one elapsed duration and the given power |
| JobReader.KeptSnoc | schedSim/jobReader.py:243-253 | one more stored job is kept exactly when it is in the partition and usable |
| JobReader.KeptExactly | schedSim/jobReader.py:243-253 | every stored job in the partition and usable is kept as often as stored; no other is |
| JobReader.Limit | schedSim/jobReader.py:246-247 | a non-negative limit caps the count, keeping a prefix |
| JobReader.JobsFromList | schedSim/jobReader.py:237-254 | the filter loop returns the kept jobs up to the limit |
| JobReader.LimitAtPrefix | schedSim/jobReader.py:246-247 | stopping at the limit returns exactly the limited list |
| JobReader.KeptPrefix | schedSim/jobReader.py:241-253 | the kept jobs of a prefix are a prefix of the kept jobs |

## Left out

- Simulation.Simulate: termination is not proved; the event loop runs under a fuel bound and ends `OutOfFuel` when it runs out.
- Simulation.Simulate: `sys.exit(1)` on an empty queue becomes the `NoJobs` outcome; the division by zero in the overview line becomes the `ZeroDivision` outcome.
- Simulation.Simulate: the price lookup `prices` is taken already bound to the run's start time. The energy-model object is not passed through the loop, and `energyModel.initTimestamp(time)` (simulator.py:73) is not called; `EnergyCosts.EnergyCostModel.InitTimestamp` models that call on its own.
- Simulation.Simulate: the list of started jobs stands in for the reporter; reporter calls, prints, `minNodeRuntime` and `longestJobRuntime` are left out.
- Schedulers.Scheduler.SetCluster: the price lookup is a total function; a `KeyError` or a missing first timestamp inside `timestampPrice` is not propagated into the schedulers.
- FailureModel.CheckWhenJobFails: failure times are whole seconds from an input stream, not numpy's exponential floats.
- FailureModel.TimeUntilNodeIsBack: the repair draw is an integer input, not a normal float draw.
- Text.ParseFloat: strips only ASCII whitespace (space, tab, line feed, vertical tab, form feed, carriage return); Python's `str.strip`, used by `int` and `float`, also strips `\x1c`-`\x1f`, `\x85`, `\xa0` and the other Unicode spaces, which are errors here. It accepts only surrounding whitespace, a sign, digits and one decimal point. Python's `float` also takes exponents, `inf`, `nan` and underscores, which are read here as errors.
- JobReader.ParseIntVal: a fractional numeral with a suffix is scaled exactly. The program multiplies binary floats and truncates, which can give one less: "1.005K" is 1004 there and 1005 here. `ParseIntValScaled` states the program's result only while the product stays below 2^53, where float arithmetic on whole numbers is exact.
- JobReader.ParseNodeMemory: a fractional memory request is scaled exactly, so the float truncation is not modelled: "0.29Mc" with 25 tasks is 7602175 in the program and 7602176 here. `ParseNodeMemoryScaled` states the program's result only while the product stays below 2^53.
- JobReader.ClassifySlurmRow: the Submit and Start columns are not read. The program parses both with `dateutil.parser.parse` outside its `try` block, so a value it cannot read (such as "Unknown") raises and ends the whole preparation; here such a row is still classified on its other columns.
- JobReader.ClassifySlurmLine: the delimiter is a single character; a longer delimiter string is not modelled. The line is stripped with `Text.Strip`, so only ASCII whitespace is removed.
- Text.ParseInt: underscores between digits and Unicode digits and spaces are not accepted.
- Prices, power and costs are exact reals; float rounding is not modelled.
- `ePrice` and `expensivePrice` are computed but never used by the code, so they are left out.
- The heap's array layout is left out. The queue is kept in pop order, and events equal in the tuple order keep insertion order.
- FIFOBackfillTest (scheduler.py:102-157) with `findJobBuddy` is left out: it is experimental and unfinished. Its branch prints and falls through.
- The scheduler hooks `jobCompleted` and `submitAllJobsWithStartTime` do nothing in the modelled classes, so they are left out.
- Class-level shared lists and the shared price dictionary are per-instance fields here.
- The scheduler contracts assume valid jobs in the queue (`AllValid`). The simulator establishes this.
- `fixedPenalties` returns 0 and is never called, so it is left out.
- `prepareSlurm` is modelled line by line (`ClassifySlurmLine`, `ClassifySlurmRow`). Its file loop, batch-time bookkeeping, sort, output file and statistics are file I/O and are left out.
- `_parseLRZ` is modelled row by row (`ClassifyLrzRow`). Its file loop and header check are left out, as is the conversion of dates to timestamps (`dateutil`, `mktime`).
- `_parseFile` is left out because it is a file loop. Its per-row work is `int` conversions and a partition filter.
- `_parseFile`'s pickle loading, `convertToBinary` and `convertJobsToBinary` are left out because they are file I/O.
- The HourlyStockPrice CSV loading is left out because it is file I/O; the price table is an input map.
- The random-number generator and the clock are left out. The wall-clock reading of a timestamp comes from an input function.
- The simulator requires `nodeMinRepairTime >= 0`, as in the configuration.
