/** The discrete-event simulator.  It feeds the jobs' submissions through
    an event queue, hands submitted jobs to the scheduler in batches, starts
    what the scheduler returns, and keeps the free-node count of the
    cluster up to date as jobs complete, nodes fail and nodes come back.
    The random draws of the failure model, the wall clock and the energy
    model's prices are inputs. */
module Simulation {
  import opened Common
  import opened Configuration
  import opened Jobs
  import opened Sorting
  import opened Schedulers
  import opened SchedulersAdvanced
  import opened SchedulersEE
  import opened FailureModel
  import opened Events

  // ---------------------------------------------------------------------
  // The scheduler's side of the simulation

  /** The schedulers the simulator runs; the experimental BackfillTest
      scheduler is not part of this model. */
  predicate Simulated(p: Policy)
  {
    !p.BackfillTest?
  }

  /** What holds of the scheduler between two events. */
  predicate Ready(s: Scheduler, c: Cluster)
    reads s, c
  {
    s.cluster == c && c.config.Valid() && c.nodes >= 0 && s.sleepingNodes >= 0 && AllValid(s.pendingList) &&
    (Ordered(s.policy) ==> SortedBy(s.pendingList, OrderKey(s.policy)))
  }

  /** What `tryToSchedule` of each scheduler class leaves behind, from the
      queue `q`, `awake` free and `sleeping` nodes, the projection `d` and
      the end of the last sleep: the decisions and the new queue, counts,
      projection and sleep end.  Only the enforcing scheduler looks at
      whether the round follows a completion. */
  function Round(p: Policy, q: seq<Job>, awake: int, sleeping: int, d: seq<(int, int)>, sleepEnd: int,
                 priceAt: int -> real, idleWatt: real, config: ClusterConfig, time: int, clock: Clock,
                 jobCompleted: bool): EEState
    requires Simulated(p)
  {
    match p
    case FIFO =>
      var k := FitCount(q, awake);
      EEState(Picks(q[..k]), q[k..], awake, sleeping, d, sleepEnd)
    case FIFOBackfillDelay => ScanState(p, q, awake, sleeping, d, sleepEnd)
    case BiggestFirstBackfill => ScanState(p, q, awake, sleeping, d, sleepEnd)
    case LongestFirstBackfill => ScanState(p, q, awake, sleeping, d, sleepEnd)
    case FIFOBackfill =>
      if q == [] then EEState([], [], awake, sleeping, d, sleepEnd)
      else
        var d' := ProjectedAt(d, time);
        var r := Scan(q, awake, 0, None, 1000, true, DelayGuard(time, d'));
        EEState(Picks(r.picked), r.rest, awake, sleeping,
                d' + (if r.exit == NoFreeNodes then [] else Releases(time, Picks(r.picked))), sleepEnd)
    case FIFOBackfillShutdown => Shutdown(q, awake, sleeping, d, sleepEnd, time)
    case FIFOBackfillShutdownDelay => ShutdownDelay(q, awake, sleeping, d, sleepEnd)
    case FIFOPriceAwareShutdown(_) =>
      PriceShutdown(q, awake, sleeping, d, sleepEnd, MakeContext(p, priceAt, idleWatt, config, time, clock))
    case PriceAwareShutdown(_) =>
      PriceShutdown(q, awake, sleeping, d, sleepEnd, MakeContext(p, priceAt, idleWatt, config, time, clock))
    case EnforcePriceAwareShutdown(_) =>
      EnforceShutdown(q, awake, sleeping, d, sleepEnd, MakeContext(p, priceAt, idleWatt, config, time, clock),
                      jobCompleted)
    case BackfillTest => EEState([], q, awake, sleeping, d, sleepEnd)
  }

  /** The bounded backfill scan of the FIFO, size- and length-ordered
      schedulers, with their skip limit, stopping at zero free nodes. */
  function ScanState(p: Policy, q: seq<Job>, awake: int, sleeping: int, d: seq<(int, int)>, sleepEnd: int): EEState
  {
    var r := Scan(q, awake, 0, None, BackfillLength(p), true, NoGuard);
    EEState(Picks(r.picked), r.rest, awake, sleeping, d, sleepEnd)
  }

  /** `Round` of the scheduler `s` on its current state. */
  ghost function RoundOf(s: Scheduler, c: Cluster, time: int, clock: Clock, jobCompleted: bool): EEState
    requires Simulated(s.policy)
    reads s, c
  {
    Round(s.policy, s.pendingList, c.nodes, s.sleepingNodes, s.dispatchedJobs, s.sleepEndTime,
          s.priceAt, s.idleWatt, c.config, time, clock, jobCompleted)
  }

  method FIFORound(s: Scheduler, c: Cluster, time: int, jobCompleted: bool, clock: Clock) returns (sched: seq<Decision>)
    requires Ready(s, c) && s.policy == FIFO
    modifies s`pendingList
    ensures Ready(s, c) && Startable(sched) && DecisionNodes(sched) <= c.nodes
    ensures StateOf(s, sched) == old(RoundOf(s, c, time, clock, jobCompleted))
  {
    ghost var k := FitCount(s.pendingList, c.nodes);
    ghost var a := EEState(Picks(s.pendingList[..k]), s.pendingList[k..], c.nodes, s.sleepingNodes,
                           s.dispatchedJobs, s.sleepEndTime);
    assert RoundOf(s, c, time, clock, jobCompleted) == a;
    FitStartable(s.pendingList, c.nodes);
    sched := s.TryToScheduleFIFO();
    assert StateOf(s, sched) == a;
  }

  method ScanRound(s: Scheduler, c: Cluster, time: int, jobCompleted: bool, clock: Clock) returns (sched: seq<Decision>)
    requires Ready(s, c) && (s.policy == FIFOBackfillDelay || Ordered(s.policy))
    modifies s`pendingList
    ensures Ready(s, c) && Startable(sched) && DecisionNodes(sched) <= c.nodes
    ensures StateOf(s, sched) == old(RoundOf(s, c, time, clock, jobCompleted))
  {
    ScanStartable(s.pendingList, c.nodes, BackfillLength(s.policy), true, NoGuard);
    if Ordered(s.policy) {
      assert BackfillLength(s.policy) == 100;
      sched := TryToScheduleOrdered(s, time);
    } else {
      sched := s.TryToScheduleScan(time);
    }
  }

  method BackfillRound(s: Scheduler, c: Cluster, time: int, jobCompleted: bool, clock: Clock) returns (sched: seq<Decision>)
    requires Ready(s, c) && s.policy == FIFOBackfill
    modifies s`pendingList, s`dispatchedJobs
    ensures Ready(s, c) && Startable(sched) && DecisionNodes(sched) <= c.nodes
    ensures StateOf(s, sched) == old(RoundOf(s, c, time, clock, jobCompleted))
  {
    var d := SortProjection(s.dispatchedJobs);
    ghost var a := RoundOf(s, c, time, clock, jobCompleted);
    assert s.pendingList != [] ==> ProjectedAt(s.dispatchedJobs, time) == d[PurgeCount(d, time)..];
    ScanStartable(s.pendingList, c.nodes, 1000, true, DelayGuard(time, d[PurgeCount(d, time)..]));
    sched := s.TryToScheduleBackfill(time);
    assert StateOf(s, sched) == a;
  }

  /** What an energy-efficient round leaves behind: decisions that can be
      carried out, exactly the started jobs' nodes awake, no node gained or
      lost, and a queue of valid jobs. */
  predicate Safe(a: EEState, total: int)
  {
    Sound(a) && a.awake >= 0 && DecisionNodes(a.sched) <= a.awake && a.awake + a.sleeping == total
  }

  lemma ShutdownSafe(q: seq<Job>, awake: int, sleeping: int, d: seq<(int, int)>, sleepEnd: int, time: int)
    requires AllValid(q) && awake >= 0 && sleeping >= 0
    ensures Safe(Shutdown(q, awake, sleeping, d, sleepEnd, time), awake + sleeping)
  {
    ShutdownConserves(q, awake, sleeping, d, sleepEnd, time);
    ShutdownStartable(q, awake, sleeping, d, sleepEnd, time);
    StartableNodes(Shutdown(q, awake, sleeping, d, sleepEnd, time).sched);
  }

  lemma ShutdownDelaySafe(q: seq<Job>, awake: int, sleeping: int, d: seq<(int, int)>, sleepEnd: int)
    requires AllValid(q) && awake >= 0 && sleeping >= 0
    ensures Safe(ShutdownDelay(q, awake, sleeping, d, sleepEnd), awake + sleeping)
  {
    ShutdownDelayConserves(q, awake, sleeping, d, sleepEnd);
    ShutdownDelayStartable(q, awake, sleeping, d, sleepEnd);
    StartableNodes(ShutdownDelay(q, awake, sleeping, d, sleepEnd).sched);
  }

  lemma PriceShutdownSafe(q: seq<Job>, awake: int, sleeping: int, d: seq<(int, int)>, sleepEnd: int,
                          ctx: PriceContext)
    requires AllValid(q) && awake >= 0 && sleeping >= 0 && ctx.Valid()
    ensures Safe(PriceShutdown(q, awake, sleeping, d, sleepEnd, ctx), awake + sleeping)
  {
    PriceShutdownConserves(q, awake, sleeping, d, sleepEnd, ctx);
    PriceShutdownStartable(q, awake, sleeping, d, sleepEnd, ctx);
    StartableNodes(PriceShutdown(q, awake, sleeping, d, sleepEnd, ctx).sched);
  }

  lemma EnforceSafe(q: seq<Job>, awake: int, sleeping: int, d: seq<(int, int)>, sleepEnd: int,
                    ctx: PriceContext, jobCompleted: bool)
    requires AllValid(q) && awake >= 0 && sleeping >= 0 && ctx.Valid()
    ensures Safe(EnforceShutdown(q, awake, sleeping, d, sleepEnd, ctx, jobCompleted), awake + sleeping)
  {
    EnforceConserves(q, awake, sleeping, d, sleepEnd, ctx, jobCompleted);
    EnforceStartable(q, awake, sleeping, d, sleepEnd, ctx, jobCompleted);
    StartableNodes(EnforceShutdown(q, awake, sleeping, d, sleepEnd, ctx, jobCompleted).sched);
  }

  /** The energy-efficient rounds keep the woken and sleeping nodes
      together and leave exactly the started jobs' nodes free. */
  method ShutdownRound(s: Scheduler, c: Cluster, time: int, jobCompleted: bool, clock: Clock) returns (sched: seq<Decision>)
    requires Ready(s, c) && s.policy == FIFOBackfillShutdown
    modifies s`pendingList, s`dispatchedJobs, s`sleepingNodes, c`nodes
    ensures Ready(s, c) && Startable(sched) && DecisionNodes(sched) <= c.nodes
    ensures c.nodes + s.sleepingNodes == old(c.nodes + s.sleepingNodes)
    ensures StateOf(s, sched) == old(RoundOf(s, c, time, clock, jobCompleted))
  {
    ghost var a := Shutdown(s.pendingList, c.nodes, s.sleepingNodes, s.dispatchedJobs, s.sleepEndTime, time);
    ShutdownSafe(s.pendingList, c.nodes, s.sleepingNodes, s.dispatchedJobs, s.sleepEndTime, time);
    sched := TryToScheduleShutdown(s, time);
    assert StateOf(s, sched) == a;
  }

  method ShutdownDelayRound(s: Scheduler, c: Cluster, time: int, jobCompleted: bool, clock: Clock) returns (sched: seq<Decision>)
    requires Ready(s, c) && s.policy == FIFOBackfillShutdownDelay
    modifies s`pendingList, s`sleepingNodes, c`nodes
    ensures Ready(s, c) && Startable(sched) && DecisionNodes(sched) <= c.nodes
    ensures c.nodes + s.sleepingNodes == old(c.nodes + s.sleepingNodes)
    ensures StateOf(s, sched) == old(RoundOf(s, c, time, clock, jobCompleted))
  {
    ghost var a := ShutdownDelay(s.pendingList, c.nodes, s.sleepingNodes, s.dispatchedJobs, s.sleepEndTime);
    ShutdownDelaySafe(s.pendingList, c.nodes, s.sleepingNodes, s.dispatchedJobs, s.sleepEndTime);
    sched := TryToScheduleShutdownDelay(s, time);
    assert StateOf(s, sched) == a;
  }

  method PriceAwareRound(s: Scheduler, c: Cluster, time: int, jobCompleted: bool, clock: Clock) returns (sched: seq<Decision>)
    requires Ready(s, c) && (s.policy.FIFOPriceAwareShutdown? || s.policy.PriceAwareShutdown?)
    modifies s`pendingList, s`sleepingNodes, s`sleepEndTime, c`nodes
    ensures Ready(s, c) && Startable(sched) && DecisionNodes(sched) <= c.nodes
    ensures c.nodes + s.sleepingNodes == old(c.nodes + s.sleepingNodes)
    ensures StateOf(s, sched) == old(RoundOf(s, c, time, clock, jobCompleted))
  {
    ghost var ctx := MakeContext(s.policy, s.priceAt, s.idleWatt, c.config, time, clock);
    ghost var a := PriceShutdown(s.pendingList, c.nodes, s.sleepingNodes, s.dispatchedJobs, s.sleepEndTime, ctx);
    MakeContextValid(s.policy, s.priceAt, s.idleWatt, c.config, time, clock);
    PriceShutdownSafe(s.pendingList, c.nodes, s.sleepingNodes, s.dispatchedJobs, s.sleepEndTime, ctx);
    assert RoundOf(s, c, time, clock, jobCompleted) == a;
    sched := TryToSchedulePriceAware(s, time, clock);
    assert StateOf(s, sched) == a;
  }

  method EnforceRound(s: Scheduler, c: Cluster, time: int, jobCompleted: bool, clock: Clock)
    returns (sched: seq<Decision>)
    requires Ready(s, c) && s.policy.EnforcePriceAwareShutdown?
    modifies s`pendingList, s`sleepingNodes, s`sleepEndTime, c`nodes
    ensures Ready(s, c) && Startable(sched) && DecisionNodes(sched) <= c.nodes
    ensures c.nodes + s.sleepingNodes == old(c.nodes + s.sleepingNodes)
    ensures StateOf(s, sched) == old(RoundOf(s, c, time, clock, jobCompleted))
  {
    ghost var ctx := MakeContext(s.policy, s.priceAt, s.idleWatt, c.config, time, clock);
    ghost var a := EnforceShutdown(s.pendingList, c.nodes, s.sleepingNodes, s.dispatchedJobs, s.sleepEndTime, ctx,
                                   jobCompleted);
    MakeContextValid(s.policy, s.priceAt, s.idleWatt, c.config, time, clock);
    EnforceSafe(s.pendingList, c.nodes, s.sleepingNodes, s.dispatchedJobs, s.sleepEndTime, ctx, jobCompleted);
    assert RoundOf(s, c, time, clock, jobCompleted) == a;
    sched := TryToScheduleEnforce(s, time, clock, jobCompleted);
    assert StateOf(s, sched) == a;
  }

  /** `tryToSchedule`, dispatched on the scheduler's class: the decisions
      can be carried out, they fit the free nodes, and no node is gained or
      lost between the free and the sleeping count. */
  method RunScheduler(s: Scheduler, c: Cluster, time: int, jobCompleted: bool, clock: Clock)
    returns (sched: seq<Decision>)
    requires Ready(s, c) && Simulated(s.policy)
    modifies s`pendingList, s`dispatchedJobs, s`sleepingNodes, s`sleepEndTime, c`nodes
    ensures Ready(s, c) && Startable(sched) && DecisionNodes(sched) <= c.nodes
    ensures c.nodes + s.sleepingNodes == old(c.nodes + s.sleepingNodes)
    ensures StateOf(s, sched) == old(RoundOf(s, c, time, clock, jobCompleted))
  {
    match s.policy
    case FIFO =>
      sched := FIFORound(s, c, time, jobCompleted, clock);
    case FIFOBackfillDelay =>
      sched := ScanRound(s, c, time, jobCompleted, clock);
    case BiggestFirstBackfill =>
      sched := ScanRound(s, c, time, jobCompleted, clock);
    case LongestFirstBackfill =>
      sched := ScanRound(s, c, time, jobCompleted, clock);
    case FIFOBackfill =>
      sched := BackfillRound(s, c, time, jobCompleted, clock);
    case FIFOBackfillShutdown =>
      sched := ShutdownRound(s, c, time, jobCompleted, clock);
    case FIFOBackfillShutdownDelay =>
      sched := ShutdownDelayRound(s, c, time, jobCompleted, clock);
    case FIFOPriceAwareShutdown(_) =>
      sched := PriceAwareRound(s, c, time, jobCompleted, clock);
    case PriceAwareShutdown(_) =>
      sched := PriceAwareRound(s, c, time, jobCompleted, clock);
    case EnforcePriceAwareShutdown(_) =>
      sched := EnforceRound(s, c, time, jobCompleted, clock);
  }

  /** The queue after `newPendingJobs`: the size- and length-ordered
      schedulers sort the extended queue, the others append. */
  function Handed(p: Policy, q: seq<Job>, jobs: seq<Job>): seq<Job>
  {
    if Ordered(p) then SortBy(q + jobs, OrderKey(p)) else q + jobs
  }

  /** The queue after `jobAbortedWithErrors`: the ordered schedulers append
      and sort, the others put the job in front. */
  function Requeued(p: Policy, q: seq<Job>, job: Job): seq<Job>
  {
    if Ordered(p) then SortBy(q + [job], OrderKey(p)) else [job] + q
  }

  /** `newPendingJobs`: the size- and length-ordered schedulers sort, the
      others append. */
  method HandOver(s: Scheduler, c: Cluster, jobs: seq<Job>)
    requires Ready(s, c) && AllValid(jobs)
    modifies s`pendingList
    ensures Ready(s, c) && s.pendingList == Handed(s.policy, old(s.pendingList), jobs)
    ensures multiset(s.pendingList) == multiset(old(s.pendingList)) + multiset(jobs)
  {
    if Ordered(s.policy) {
      SortQueue(s.policy, s.pendingList + jobs, (0, 0));
      NewPendingJobsOrdered(s, jobs);
    } else {
      s.NewPendingJobs(jobs);
    }
    AllValidSub(s.pendingList, old(s.pendingList) + jobs);
  }

  /** `jobAbortedWithErrors`: the job is queued again. */
  method Requeue(s: Scheduler, c: Cluster, job: Job)
    requires Ready(s, c) && ValidJob(job)
    modifies s`pendingList
    ensures Ready(s, c) && s.pendingList == Requeued(s.policy, old(s.pendingList), job)
    ensures multiset(s.pendingList) == multiset(old(s.pendingList)) + multiset{job}
  {
    if Ordered(s.policy) {
      SortQueue(s.policy, s.pendingList + [job], (0, 0));
      JobAbortedOrdered(s, job);
      AllValidSub(s.pendingList, old(s.pendingList) + [job]);
    } else {
      s.JobAbortedWithErrors(job);
      AllValidSub(s.pendingList, [job] + old(s.pendingList));
    }
  }

  // ---------------------------------------------------------------------
  // The events

  /** A submission, completion or abort event carries a valid job. */
  predicate EventOk(e: Event)
  {
    (e.kind == JobSubmitted || e.kind == JobCompleted || e.kind == JobStoppedWithFailures) ==>
      e.job.Some? && ValidJob(e.job.value)
  }

  /** The events a round of starts adds: a completion or abort of a
      started job, or a timer requested by the scheduler, none of them
      before `time`. */
  predicate FollowUp(e: Event, time: int)
  {
    e.time >= time && EventOk(e) &&
    (e.kind == JobCompleted || e.kind == JobStoppedWithFailures || e.kind == StartScheduler)
  }

  /** `n` failure-time draws, one per node, from the stream at `from`. */
  function Draws(failDraw: nat -> nat, from: nat, n: nat): (d: seq<nat>)
    ensures |d| == n
  {
    seq(n, (i: int) requires 0 <= i => failDraw(from + i))
  }

  /** The event that starting decision `d` at `time` queues: a sleep
      request's timer after its delay, or a started job's end, which is its
      completion after its run time or, only with the failure model on, an
      earlier abort; the event carries the job with its start and end
      times. */
  predicate Follows(d: Decision, e: Event, time: int, errorModel: bool)
  {
    (d.SleepScheduling? ==> e == Event(time + d.delay, StartScheduler, None)) &&
    (d.Dispatch? ==>
       (e.kind == JobCompleted || e.kind == JobStoppedWithFailures) && e.job.Some? &&
       e.job.value == d.job.(startTime := time, endTime := e.time) &&
       (e.kind == JobCompleted ==> e.time == time + d.runtime) &&
       (e.kind == JobStoppedWithFailures ==> errorModel && e.time < time + d.runtime))
  }

  /** The jobs that decisions `ds`, followed by events `es`, start, in
      order: each dispatched job with start time `time` and the time of
      its end event. */
  function StartedJobs(ds: seq<Decision>, es: seq<Event>, time: int): seq<Job>
    requires |es| == |ds|
  {
    if ds == [] then []
    else
      StartedJobs(ds[..|ds| - 1], es[..|es| - 1], time) +
      (if ds[|ds| - 1].Dispatch? then [ds[|ds| - 1].job.(startTime := time, endTime := es[|es| - 1].time)] else [])
  }

  lemma StartedJobsSnoc(ds: seq<Decision>, es: seq<Event>, d: Decision, e: Event, time: int)
    requires |es| == |ds|
    ensures StartedJobs(ds + [d], es + [e], time) ==
            StartedJobs(ds, es, time) + (if d.Dispatch? then [d.job.(startTime := time, endTime := e.time)] else [])
  {
    assert (ds + [d])[..|ds|] == ds;
    assert (es + [e])[..|es|] == es;
  }

  /** Starting one decision: a sleep request arms a timer after its delay;
      a started job takes its nodes from the free count and is followed by
      exactly one event at its end, a completion after its run time or, if
      a node fails first, an abort then. */
  method StartOne(c: Cluster, d: Decision, time: int, errorModel: bool, failDraw: nat -> nat, fc0: nat)
    returns (e: Event, fc: nat)
    requires CanStart(d)
    requires d.Dispatch? ==> d.job.nodes <= c.nodes
    modifies c`nodes
    ensures c.nodes == old(c.nodes) - (if d.Dispatch? then d.job.nodes else 0)
    ensures FollowUp(e, time) && NodesHeld(e) == (if d.Dispatch? then d.job.nodes else 0)
    ensures Follows(d, e, time, errorModel)
  {
    fc := fc0;
    match d {
      case SleepScheduling(delay) =>
        e := Event(time + delay, StartScheduler, None);
      case Dispatch(job, runtime, _) =>
        c.nodes := c.nodes - job.nodes;
        var fail: Option<nat> := None;
        if errorModel {
          fail := CheckWhenJobFails(job.nodes, runtime, Draws(failDraw, fc, job.nodes));
          fc := fc + job.nodes;
        }
        if fail.None? {
          var j := job.(startTime := time, endTime := time + runtime);
          e := Event(j.endTime, JobCompleted, Some(j));
        } else {
          var j := job.(startTime := time, endTime := time + fail.value);
          e := Event(j.endTime, JobStoppedWithFailures, Some(j));
        }
    }
  }

  /** The job's end event: its completion or its abort. */
  predicate EndQueued(j: Job, el: seq<Event>)
  {
    Event(j.endTime, JobCompleted, Some(j)) in el || Event(j.endTime, JobStoppedWithFailures, Some(j)) in el
  }

  /** What starting decisions at `time` leaves of the queue `el0`: it is
      still in order, no event was lost, every added event is a follow-up,
      no idle-node failure was added, and each started job's end event is
      queued. */
  predicate StartInv(el0: seq<Event>, el: seq<Event>, started: seq<Job>, time: int)
  {
    Sorted(el) && multiset(el0) <= multiset(el) &&
    Count(el, EmptyNodeFailure) == Count(el0, EmptyNodeFailure) && Count(el, StartScheduler) >= Count(el0, StartScheduler) &&
    (forall e | e in el :: e in el0 || FollowUp(e, time)) &&
    (forall j | j in started :: j.startTime == time && j.endTime >= time && EndQueued(j, el))
  }

  lemma StartInvPush(el0: seq<Event>, el: seq<Event>, started: seq<Job>, e: Event, time: int)
    requires StartInv(el0, el, started, time) && FollowUp(e, time) && e.kind != EmptyNodeFailure
    ensures StartInv(el0, Push(el, e), started, time)
    ensures Total(Push(el, e), NodesHeld) == Total(el, NodesHeld) + NodesHeld(e)
    ensures (e.kind == JobCompleted || e.kind == JobStoppedWithFailures) && e.job.Some? &&
            e.job.value.startTime == time && e.job.value.endTime == e.time ==>
              StartInv(el0, Push(el, e), started + [e.job.value], time)
  {
    PushFacts(el, e);
    StillQueued(started, el, Push(el, e));
    if e.job.Some? {
      assert e == Event(e.time, e.kind, Some(e.job.value));
    }
  }

  /** A prefix of startable decisions needs no more nodes than all of them. */
  lemma {:induction false} PrefixBound(ds: seq<Decision>, i: nat)
    requires Startable(ds) && i <= |ds|
    ensures DecisionNodes(ds[..i]) <= DecisionNodes(ds)
    decreases |ds| - i
  {
    if i == |ds| {
      assert ds[..i] == ds;
    } else {
      PrefixBound(ds, i + 1);
      PrefixSnoc(ds, i);
    }
  }

  lemma PrefixSnoc(ds: seq<Decision>, i: nat)
    requires i < |ds|
    ensures ds[..i + 1] == ds[..i] + [ds[i]]
    ensures DecisionNodes(ds[..i + 1]) == DecisionNodes(ds[..i]) + (if ds[i].Dispatch? then ds[i].job.nodes else 0)
  {
    assert ds[..i + 1] == ds[..i] + [ds[i]];
    DecisionNodesSnoc(ds[..i], ds[i]);
  }

  /** Starting the scheduler's decisions in order: the started jobs take
      exactly the decisions' nodes from the free count, which stays
      non-negative, and each is followed by one event at its end. */
  method StartJobs(c: Cluster, sched: seq<Decision>, time: int, el0: seq<Event>, errorModel: bool,
                   failDraw: nat -> nat, fc0: nat)
    returns (el: seq<Event>, fc: nat, started: seq<Job>, ghost es: seq<Event>)
    requires Startable(sched) && DecisionNodes(sched) <= c.nodes && Sorted(el0)
    modifies c`nodes
    ensures c.nodes == old(c.nodes) - DecisionNodes(sched) && c.nodes >= 0
    ensures Total(el, NodesHeld) == Total(el0, NodesHeld) + DecisionNodes(sched)
    ensures StartInv(el0, el, started, time)
    ensures Started(sched, el0, el, started, es, time, errorModel)
  {
    el, fc, started, es := el0, fc0, [], [];
    PrefixBound(sched, 0);
    for i := 0 to |sched|
      invariant c.nodes == old(c.nodes) - DecisionNodes(sched[..i]) && DecisionNodes(sched[..i]) <= DecisionNodes(sched)
      invariant Total(el, NodesHeld) == Total(el0, NodesHeld) + DecisionNodes(sched[..i])
      invariant StartInv(el0, el, started, time)
      invariant Started(sched[..i], el0, el, started, es, time, errorModel)
    {
      PrefixSnoc(sched, i);
      PrefixBound(sched, i + 1);
      var e;
      e, fc := StartOne(c, sched[i], time, errorModel, failDraw, fc);
      StartInvPush(el0, el, started, e, time);
      StartedPush(sched[..i], el0, el, started, es, sched[i], e, time, errorModel);
      el := Push(el, e);
      if sched[i].Dispatch? {
        started := started + [e.job.value];
      }
      es := es + [e];
    }
    assert sched[..|sched|] == sched;
  }

  /** Decisions `ds` were started in order from queue `el0`: one event per
      decision, each the one `Follows` names, was added to the queue and
      nothing else, and `started` holds the dispatched jobs. */
  predicate Started(ds: seq<Decision>, el0: seq<Event>, el: seq<Event>, started: seq<Job>, es: seq<Event>,
                    time: int, errorModel: bool)
  {
    |es| == |ds| && multiset(el) == multiset(el0) + multiset(es) &&
    (forall i | 0 <= i < |ds| :: Follows(ds[i], es[i], time, errorModel)) &&
    started == StartedJobs(ds, es, time)
  }

  /** `Started`, followed by the idle-node check: the check may add an
      idle-node failure to the queue, and only with the failure model on. */
  predicate StartedInto(ds: seq<Decision>, el0: seq<Event>, el: seq<Event>, started: seq<Job>, es: seq<Event>,
                        time: int, errorModel: bool)
  {
    |es| == |ds| && multiset(el0) + multiset(es) <= multiset(el) &&
    (!errorModel ==> multiset(el) == multiset(el0) + multiset(es)) &&
    (forall i | 0 <= i < |ds| :: Follows(ds[i], es[i], time, errorModel)) &&
    started == StartedJobs(ds, es, time)
  }

  lemma NothingStarted(el: seq<Event>, time: int, errorModel: bool)
    ensures StartedInto([], el, el, [], [], time, errorModel)
  {
  }

  lemma StartedPush(ds: seq<Decision>, el0: seq<Event>, el: seq<Event>, started: seq<Job>, es: seq<Event>,
                    d: Decision, e: Event, time: int, errorModel: bool)
    requires Started(ds, el0, el, started, es, time, errorModel) && Sorted(el) && Follows(d, e, time, errorModel)
    ensures Started(ds + [d], el0, Push(el, e),
                    started + (if d.Dispatch? then [e.job.value] else []), es + [e], time, errorModel)
  {
    PushFacts(el, e);
    StartedJobsSnoc(ds, es, d, e, time);
    forall i | 0 <= i < |ds| + 1
      ensures Follows((ds + [d])[i], (es + [e])[i], time, errorModel)
    {
      if i < |ds| {
        assert (ds + [d])[i] == ds[i] && (es + [e])[i] == es[i];
      }
    }
  }

  /** What one push does to the queue's order, contents, held nodes and
      failure count. */
  lemma PushFacts(el: seq<Event>, e: Event)
    requires Sorted(el)
    ensures Sorted(Push(el, e)) && multiset(Push(el, e)) == multiset(el) + multiset{e} && e in Push(el, e)
    ensures Total(Push(el, e), NodesHeld) == Total(el, NodesHeld) + NodesHeld(e)
    ensures Count(Push(el, e), EmptyNodeFailure) == Count(el, EmptyNodeFailure) + (if e.kind == EmptyNodeFailure then 1 else 0)
    ensures Count(Push(el, e), StartScheduler) == Count(el, StartScheduler) + (if e.kind == StartScheduler then 1 else 0)
    ensures forall x | x in Push(el, e) :: x in el || x == e
  {
    PushSorted(el, e);
    PushMultiset(el, e);
    PushTotal(el, e, NodesHeld);
    PushCount(el, e, EmptyNodeFailure);
    PushCount(el, e, StartScheduler);
    assert e in multiset(Push(el, e));
    forall x | x in Push(el, e)
      ensures x in el || x == e
    {
      assert x in multiset(Push(el, e));
    }
  }

  lemma StillQueued(js: seq<Job>, el: seq<Event>, el': seq<Event>)
    requires multiset(el) <= multiset(el')
    requires forall j | j in js :: EndQueued(j, el)
    ensures forall j | j in js :: EndQueued(j, el')
  {
    forall j | j in js
      ensures EndQueued(j, el')
    {
      var c := Event(j.endTime, JobCompleted, Some(j));
      var f := Event(j.endTime, JobStoppedWithFailures, Some(j));
      if c in el {
        assert c in multiset(el);
      } else {
        assert f in multiset(el);
      }
    }
  }

  /** A queued idle-node failure is the next event, and it comes while a
      node is free. */
  predicate FailureAtHead(el: seq<Event>, free: int)
  {
    el == [] || (Count(el[1..], EmptyNodeFailure) == 0 && (el[0].kind == EmptyNodeFailure ==> free > 0))
  }

  lemma NoFailureAtHead(el: seq<Event>, free: int)
    requires Count(el, EmptyNodeFailure) == 0
    ensures FailureAtHead(el, free)
  {
  }

  /** The free nodes may fail before the next event: one draw per free
      node, and a failure strictly before the next event is queued. */
  method CheckIdleFailure(c: Cluster, time: int, el0: seq<Event>, failDraw: nat -> nat, fc0: nat)
    returns (el: seq<Event>, fc: nat)
    requires c.nodes > 0 && el0 != [] && Sorted(el0) && Count(el0, EmptyNodeFailure) == 0
    requires forall e | e in el0 :: e.time >= time
    ensures Sorted(el) && multiset(el0) <= multiset(el) && FailureAtHead(el, c.nodes)
    ensures Total(el, NodesHeld) == Total(el0, NodesHeld) && Count(el, StartScheduler) == Count(el0, StartScheduler)
    ensures forall e | e in el :: e in el0 || (e.kind == EmptyNodeFailure && e.time >= time && e.time < el0[0].time)
  {
    el, fc := el0, fc0;
    var fail := CheckWhenJobFails(c.nodes, el[0].time - time, Draws(failDraw, fc, c.nodes));
    fc := fc + c.nodes;
    if fail.Some? {
      var e := Event(time + fail.value, EmptyNodeFailure, None);
      PopLeast(el);
      PushEarliest(el, e);
      PushSorted(el, e);
      PushTotal(el, e, NodesHeld);
      PushCount(el, e, StartScheduler);
      el := Push(el, e);
    }
  }

  /** The initial queue: one submission event per job that fits the
      cluster. */
  method Setup(jobs: seq<Job>, capacity: int) returns (el: seq<Event>)
    ensures Sorted(el) && multiset(el) == Submissions(Accepted(jobs, capacity))
  {
    el := [];
    for i := 0 to |jobs|
      invariant Sorted(el) && multiset(el) == Submissions(Accepted(jobs[..i], capacity))
    {
      AcceptedSnoc(jobs, i, capacity);
      if jobs[i].nodes <= capacity {
        PushSorted(el, Submission(jobs[i]));
        PushMultiset(el, Submission(jobs[i]));
        SubmissionsSnoc(Accepted(jobs[..i], capacity), jobs[i]);
        el := Push(el, Submission(jobs[i]));
      } else {
        assert Accepted(jobs[..i], capacity) + [] == Accepted(jobs[..i], capacity);
      }
    }
    assert jobs[..|jobs|] == jobs;
  }

  lemma AcceptedSnoc(jobs: seq<Job>, i: nat, capacity: int)
    requires i < |jobs|
    ensures Accepted(jobs[..i + 1], capacity)
         == Accepted(jobs[..i], capacity) + (if jobs[i].nodes <= capacity then [jobs[i]] else [])
  {
    assert jobs[..i + 1][..i] == jobs[..i];
  }

  lemma InitialEventsOk(jobs: seq<Job>, capacity: int, el: seq<Event>)
    requires AllValid(jobs) && multiset(el) == Submissions(Accepted(jobs, capacity))
    ensures forall e | e in el :: EventOk(e) && e.time >= 0 && NodesHeld(e) == 0 && e.kind != EmptyNodeFailure
  {
    forall e | e in el
      ensures EventOk(e) && e.time >= 0 && NodesHeld(e) == 0 && e.kind != EmptyNodeFailure
    {
      assert e in multiset(el);
      SubmissionsOf(Accepted(jobs, capacity), e);
      var j := e.job.value;
      AcceptedExactly(jobs, capacity, j);
      assert j in multiset(jobs);
    }
  }

  lemma {:induction false} NoneHeld(el: seq<Event>)
    requires forall e | e in el :: NodesHeld(e) == 0 && e.kind != EmptyNodeFailure
    ensures Total(el, NodesHeld) == 0 && Count(el, EmptyNodeFailure) == 0
  {
    if el != [] {
      assert el[0] in el;
      assert forall e | e in el[1..] :: e in el;
      NoneHeld(el[1..]);
    }
  }

  // ---------------------------------------------------------------------
  // The event loop

  /** The change an event makes to the free-node count: a completed job
      frees its nodes, an aborted one all but the failed node, a failed
      idle node is taken away and a repaired one comes back. */
  function Freed(ev: Event): int
  {
    match ev.kind
    case JobCompleted => if ev.job.Some? then ev.job.value.nodes else 0
    case JobStoppedWithFailures => if ev.job.Some? then ev.job.value.nodes - 1 else 0
    case EmptyNodeFailure => -1
    case NodeRepaired => 1
    case _ => 0
  }

  /** Queued events are in order, none before `time`, and every one that
      names a job names a valid one. */
  predicate QueueOk(el: seq<Event>, time: int)
  {
    Sorted(el) && forall e | e in el :: e.time >= time && EventOk(e)
  }

  /** Submitted jobs not yet handed over wait for a queued timer. */
  predicate Batching(buffer: seq<Job>, armed: bool, el: seq<Event>)
  {
    AllValid(buffer) && (buffer != [] ==> armed) && (armed ==> Count(el, StartScheduler) > 0)
  }

  /** The free-node count after the event, before any round. */
  function FreeAfter(free: int, ev: Event): int
  {
    free + Freed(ev)
  }

  /** A failed idle node or an aborted job: a node goes offline. */
  predicate Fails(ev: Event)
  {
    ev.kind == EmptyNodeFailure || ev.kind == JobStoppedWithFailures
  }

  /** The event queue after handling `ev`: the first submission of a batch
      arms the batching timer one scheduling delay later, and a failed node
      is followed by its repair after the drawn repair time. */
  function Queued(ev: Event, el0: seq<Event>, armed0: bool, config: ClusterConfig, repair: int): seq<Event>
  {
    if ev.kind == JobSubmitted && !armed0 then Push(el0, Event(ev.time + SchedulingDelay(), StartScheduler, None))
    else if Fails(ev) then
      Push(el0, Event(ev.time + TimeUntilNodeIsBack(repair, config.nodeMinRepairTime), NodeRepaired, None))
    else el0
  }

  /** The queue `Queued` builds keeps the event-queue invariants. */
  lemma QueuedKeeps(ev: Event, el0: seq<Event>, armed0: bool, config: ClusterConfig, repair: int)
    requires EventOk(ev) && config.nodeMinRepairTime >= 0
    requires QueueOk(el0, ev.time) && Count(el0, EmptyNodeFailure) == 0
    ensures QueueOk(Queued(ev, el0, armed0, config, repair), ev.time)
    ensures Count(Queued(ev, el0, armed0, config, repair), EmptyNodeFailure) == 0
  {
    var r := Queued(ev, el0, armed0, config, repair);
    if ev.kind == JobSubmitted && !armed0 {
      var e := Event(ev.time + SchedulingDelay(), StartScheduler, None);
      assert r == Push(el0, e);
      Pushed(el0, e, ev.time);
    } else if Fails(ev) {
      var e := Event(ev.time + TimeUntilNodeIsBack(repair, config.nodeMinRepairTime), NodeRepaired, None);
      assert r == Push(el0, e);
      Pushed(el0, e, ev.time);
    } else {
      assert r == el0;
    }
    assert QueueOk(r, ev.time) && Count(r, EmptyNodeFailure) == 0;
  }

  /** The queue `Queued` builds holds the node a failure takes offline and
      gains a timer exactly when a batch starts. */
  lemma QueuedCounts(ev: Event, el0: seq<Event>, armed0: bool, config: ClusterConfig, repair: int)
    requires EventOk(ev)
    ensures Total(Queued(ev, el0, armed0, config, repair), NodesHeld) + Freed(ev) == Total(el0, NodesHeld) + NodesHeld(ev)
    ensures Count(Queued(ev, el0, armed0, config, repair), StartScheduler) ==
              Count(el0, StartScheduler) + (if ev.kind == JobSubmitted && !armed0 then 1 else 0)
  {
    if ev.kind == JobSubmitted && !armed0 {
      var e := Event(ev.time + SchedulingDelay(), StartScheduler, None);
      PushTotal(el0, e, NodesHeld);
      PushCount(el0, e, StartScheduler);
    } else if Fails(ev) {
      var e := Event(ev.time + TimeUntilNodeIsBack(repair, config.nodeMinRepairTime), NodeRepaired, None);
      PushTotal(el0, e, NodesHeld);
      PushCount(el0, e, StartScheduler);
    }
  }

  /** The scheduler's queue after handling `ev`: a timer hands the batch
      over and an aborted job is queued again. */
  function QueueAfter(p: Policy, q: seq<Job>, ev: Event, buffer0: seq<Job>): seq<Job>
  {
    if ev.kind == StartScheduler then Handed(p, q, buffer0)
    else if ev.kind == JobStoppedWithFailures && ev.job.Some? then Requeued(p, q, ev.job.value)
    else q
  }

  /** What an event does to the cluster and the scheduler: the free-node
      count changes as the event says, an aborted job is queued again and a
      timer hands the batch over. */
  method Account(s: Scheduler, c: Cluster, ev: Event, buffer0: seq<Job>)
    requires Ready(s, c) && EventOk(ev) && AllValid(buffer0)
    requires ev.kind == EmptyNodeFailure ==> c.nodes > 0
    modifies s`pendingList, c`nodes
    ensures Ready(s, c) && c.nodes == old(c.nodes) + Freed(ev)
    ensures s.pendingList == QueueAfter(s.policy, old(s.pendingList), ev, buffer0)
    ensures multiset(s.pendingList) ==
              multiset(old(s.pendingList)) +
              (if ev.kind == StartScheduler then multiset(buffer0)
               else if ev.kind == JobStoppedWithFailures then multiset{ev.job.value} else multiset{})
  {
    match ev.kind {
      case JobSubmitted =>
      case JobCompleted =>
        c.nodes := c.nodes + ev.job.value.nodes;
      case EmptyNodeFailure =>
        c.nodes := c.nodes - 1;
      case JobStoppedWithFailures =>
        c.nodes := c.nodes + ev.job.value.nodes - 1;
        Requeue(s, c, ev.job.value);
      case NodeRepaired =>
        c.nodes := c.nodes + 1;
      case StartScheduler =>
        HandOver(s, c, buffer0);
    }
  }

  /** What an event does to the event queue and the batching timer: a
      failed node is held until its repair event, drawn from the
      `rc0`-th repair time, a submission arms the timer unless it is armed,
      and a timer disarms it. */
  method Timers(ev: Event, el0: seq<Event>, buffer0: seq<Job>, armed0: bool, config: ClusterConfig,
                repairDraw: nat -> int, rc0: nat)
    returns (el: seq<Event>, buffer: seq<Job>, armed: bool, rc: nat)
    requires EventOk(ev) && config.nodeMinRepairTime >= 0
    requires QueueOk(el0, ev.time) && Count(el0, EmptyNodeFailure) == 0
    requires AllValid(buffer0) && (buffer0 != [] ==> armed0)
    requires armed0 ==> Count(el0, StartScheduler) > 0 || ev.kind == StartScheduler
    ensures Total(el, NodesHeld) + Freed(ev) == Total(el0, NodesHeld) + NodesHeld(ev)
    ensures QueueOk(el, ev.time) && Count(el, EmptyNodeFailure) == 0 && Batching(buffer, armed, el)
    ensures buffer == (if ev.kind == JobSubmitted then buffer0 + [ev.job.value]
                       else if ev.kind == StartScheduler then [] else buffer0)
    ensures armed == (if ev.kind == StartScheduler then false else armed0 || ev.kind == JobSubmitted)
    ensures el == Queued(ev, el0, armed0, config, repairDraw(rc0))
    ensures rc == rc0 + (if Fails(ev) then 1 else 0)
  {
    el, buffer, armed, rc := el0, buffer0, armed0, rc0;
    var time := ev.time;
    match ev.kind {
      case JobSubmitted =>
        buffer := buffer + [ev.job.value];
        if !armed {
          el := Push(el, Event(time + SchedulingDelay(), StartScheduler, None));
          armed := true;
        }
      case EmptyNodeFailure =>
        el := Push(el, Event(time + TimeUntilNodeIsBack(repairDraw(rc), config.nodeMinRepairTime), NodeRepaired, None));
        rc := rc + 1;
      case JobStoppedWithFailures =>
        el := Push(el, Event(time + TimeUntilNodeIsBack(repairDraw(rc), config.nodeMinRepairTime), NodeRepaired, None));
        rc := rc + 1;
      case StartScheduler =>
        buffer := [];
        armed := false;
      case _ =>
    }
    assert el == Queued(ev, el0, armed0, config, repairDraw(rc0));
    QueuedKeeps(ev, el0, armed0, config, repairDraw(rc0));
    QueuedCounts(ev, el0, armed0, config, repairDraw(rc0));
  }

  /** One popped event, up to the scheduling round: `Account` updates the
      cluster and the scheduler and `Timers` the event queue and the
      batching timer. */
  method Handle(s: Scheduler, c: Cluster, ev: Event, el0: seq<Event>, buffer0: seq<Job>, armed0: bool,
                repairDraw: nat -> int, rc0: nat)
    returns (el: seq<Event>, buffer: seq<Job>, armed: bool, rc: nat)
    requires Ready(s, c) && EventOk(ev) && c.config.nodeMinRepairTime >= 0
    requires ev.kind == EmptyNodeFailure ==> c.nodes > 0
    requires QueueOk(el0, ev.time) && Count(el0, EmptyNodeFailure) == 0
    requires AllValid(buffer0) && (buffer0 != [] ==> armed0)
    requires armed0 ==> Count(el0, StartScheduler) > 0 || ev.kind == StartScheduler
    modifies s`pendingList, c`nodes
    ensures Ready(s, c) && c.nodes == old(c.nodes) + Freed(ev)
    ensures Total(el, NodesHeld) + Freed(ev) == Total(el0, NodesHeld) + NodesHeld(ev)
    ensures QueueOk(el, ev.time) && Count(el, EmptyNodeFailure) == 0 && Batching(buffer, armed, el)
    ensures buffer == (if ev.kind == JobSubmitted then buffer0 + [ev.job.value]
                       else if ev.kind == StartScheduler then [] else buffer0)
    ensures armed == (if ev.kind == StartScheduler then false else armed0 || ev.kind == JobSubmitted)
    ensures el == Queued(ev, el0, armed0, c.config, repairDraw(rc0))
    ensures rc == rc0 + (if Fails(ev) then 1 else 0)
    ensures s.pendingList == QueueAfter(s.policy, old(s.pendingList), ev, buffer0)
    ensures multiset(s.pendingList) ==
              multiset(old(s.pendingList)) +
              (if ev.kind == StartScheduler then multiset(buffer0)
               else if ev.kind == JobStoppedWithFailures then multiset{ev.job.value} else multiset{})
  {
    Account(s, c, ev, buffer0);
    el, buffer, armed, rc := Timers(ev, el0, buffer0, armed0, c.config, repairDraw, rc0);
  }

  /** Pushing an event that is not an idle-node failure and not before
      `time` keeps the queue's invariants. */
  lemma Pushed(el: seq<Event>, e: Event, time: int)
    requires QueueOk(el, time) && e.time >= time && EventOk(e) && e.kind != EmptyNodeFailure
    ensures QueueOk(Push(el, e), time) && Count(Push(el, e), EmptyNodeFailure) == Count(el, EmptyNodeFailure)
    ensures Total(Push(el, e), NodesHeld) == Total(el, NodesHeld) + NodesHeld(e)
    ensures Count(Push(el, e), StartScheduler) == Count(el, StartScheduler) + (if e.kind == StartScheduler then 1 else 0)
  {
    PushFacts(el, e);
    PushCount(el, e, StartScheduler);
  }

  /** How a run ends: every job completed, the event queue drained, or the
      fuel that bounds the loop in this model ran out. */
  datatype Ending = AllCompleted | QueueEmpty | OutOfFuel

  /** The run's outcome: the overview line divides by the cluster size, an
      empty initial queue stops the program, and otherwise the loop runs
      from the first submission to the last popped event. */
  datatype SimResult =
    | ZeroDivision
    | NoJobs
    | Ran(ending: Ending, starttime: int, endtime: int, completed: nat, freeAtEnd: int, sleepingAtEnd: int,
          unsubmitted: nat)

  /** A scheduling round: the scheduler's decisions are started, no node
      is gained or lost, and the queue keeps its invariants. */
  method Reschedule(s: Scheduler, c: Cluster, time: int, jobCompleted: bool, clock: Clock, el0: seq<Event>,
                    errorModel: bool, failDraw: nat -> nat, fc0: nat)
    returns (sched: seq<Decision>, el: seq<Event>, fc: nat, started: seq<Job>, ghost es: seq<Event>)
    requires Ready(s, c) && Simulated(s.policy) && QueueOk(el0, time) && Count(el0, EmptyNodeFailure) == 0
    modifies s`pendingList, s`dispatchedJobs, s`sleepingNodes, s`sleepEndTime, c`nodes
    ensures Ready(s, c)
    ensures var a := old(RoundOf(s, c, time, clock, jobCompleted));
            sched == a.sched && s.pendingList == a.pending && s.sleepingNodes == a.sleeping &&
            s.dispatchedJobs == a.dispatched && s.sleepEndTime == a.sleepEnd && c.nodes == a.awake - DecisionNodes(sched)
    ensures c.nodes + s.sleepingNodes + Total(el, NodesHeld) == old(c.nodes + s.sleepingNodes) + Total(el0, NodesHeld)
    ensures QueueOk(el, time) && Count(el, EmptyNodeFailure) == 0
    ensures Count(el, StartScheduler) >= Count(el0, StartScheduler)
    ensures forall j | j in started :: j.startTime == time && j.endTime >= time && EndQueued(j, el)
    ensures Started(sched, el0, el, started, es, time, errorModel)
  {
    ghost var a := RoundOf(s, c, time, clock, jobCompleted);
    sched := RunScheduler(s, c, time, jobCompleted, clock);
    assert StateOf(s, sched) == a;
    ghost var awake := c.nodes;
    el, fc, started, es := StartJobs(c, sched, time, el0, errorModel, failDraw, fc0);
    assert c.nodes == awake - DecisionNodes(sched);
  }

  /** The idle-node check after an event: with the failure model on, free
      nodes, and a next event, an idle-node failure may be queued ahead
      of that event. */
  method IdleCheck(c: Cluster, time: int, el0: seq<Event>, errorModel: bool, failDraw: nat -> nat, fc0: nat)
    returns (el: seq<Event>, fc: nat)
    requires c.nodes >= 0 && QueueOk(el0, time) && Count(el0, EmptyNodeFailure) == 0
    ensures QueueOk(el, time) && FailureAtHead(el, c.nodes)
    ensures Total(el, NodesHeld) == Total(el0, NodesHeld) && Count(el, StartScheduler) == Count(el0, StartScheduler)
    ensures multiset(el0) <= multiset(el)
    ensures !errorModel ==> el == el0
  {
    if errorModel && c.nodes > 0 && el0 != [] {
      el, fc := CheckIdleFailure(c, time, el0, failDraw, fc0);
    } else {
      el, fc := el0, fc0;
      NoFailureAtHead(el, c.nodes);
    }
  }

  /** One pass of the event loop after the pop: the event is handled, a
      scheduling round follows unless the event was a submission or an
      idle-node failure, and the idle nodes are checked unless it was a
      submission. */
  method Step(s: Scheduler, c: Cluster, ev: Event, el0: seq<Event>, buffer0: seq<Job>, armed0: bool, clock: Clock,
              errorModel: bool, failDraw: nat -> nat, fc0: nat, repairDraw: nat -> int, rc0: nat)
    returns (sched: seq<Decision>, el: seq<Event>, buffer: seq<Job>, armed: bool, fc: nat, rc: nat, started: seq<Job>,
             ghost es: seq<Event>)
    requires Ready(s, c) && Simulated(s.policy) && EventOk(ev) && c.config.nodeMinRepairTime >= 0
    requires ev.kind == EmptyNodeFailure ==> c.nodes > 0
    requires QueueOk(el0, ev.time) && Count(el0, EmptyNodeFailure) == 0
    requires AllValid(buffer0) && (buffer0 != [] ==> armed0)
    requires armed0 ==> Count(el0, StartScheduler) > 0 || ev.kind == StartScheduler
    modifies s`pendingList, s`dispatchedJobs, s`sleepingNodes, s`sleepEndTime, c`nodes
    ensures Ready(s, c)
    ensures c.nodes + s.sleepingNodes + Total(el, NodesHeld) ==
            old(c.nodes + s.sleepingNodes) + Total(el0, NodesHeld) + NodesHeld(ev)
    ensures QueueOk(el, ev.time) && FailureAtHead(el, c.nodes) && Batching(buffer, armed, el)
    ensures forall j | j in started :: j.startTime == ev.time <= j.endTime
    ensures ev.kind == JobSubmitted || ev.kind == EmptyNodeFailure ==> started == [] && es == []
    ensures StartedInto(sched, Queued(ev, el0, armed0, c.config, repairDraw(rc0)), el, started, es, ev.time, errorModel)
    ensures buffer == (if ev.kind == JobSubmitted then buffer0 + [ev.job.value]
                       else if ev.kind == StartScheduler then [] else buffer0)
    ensures armed == (if ev.kind == StartScheduler then false else armed0 || ev.kind == JobSubmitted)
    ensures rc == rc0 + (if Fails(ev) then 1 else 0)
    ensures var q1 := QueueAfter(s.policy, old(s.pendingList), ev, buffer0);
            var awake1 := FreeAfter(old(c.nodes), ev);
            if ev.kind == JobSubmitted || ev.kind == EmptyNodeFailure then
              sched == [] && s.pendingList == q1 && c.nodes == awake1 && s.sleepingNodes == old(s.sleepingNodes) &&
              s.dispatchedJobs == old(s.dispatchedJobs) && s.sleepEndTime == old(s.sleepEndTime)
            else
              var a := Round(s.policy, q1, awake1, old(s.sleepingNodes), old(s.dispatchedJobs), old(s.sleepEndTime),
                             s.priceAt, s.idleWatt, c.config, ev.time, clock, ev.kind == JobCompleted);
              sched == a.sched && s.pendingList == a.pending && s.sleepingNodes == a.sleeping &&
              s.dispatchedJobs == a.dispatched && s.sleepEndTime == a.sleepEnd && c.nodes == a.awake - DecisionNodes(sched)
  {
    ghost var q1, awake1 := QueueAfter(s.policy, s.pendingList, ev, buffer0), FreeAfter(c.nodes, ev);
    ghost var sleeping0 := s.sleepingNodes;
    el, buffer, armed, rc := Handle(s, c, ev, el0, buffer0, armed0, repairDraw, rc0);
    ghost var el1 := el;
    assert c.nodes + sleeping0 + Total(el1, NodesHeld) == old(c.nodes + s.sleepingNodes) + Total(el0, NodesHeld) + NodesHeld(ev);
    sched, el, fc, started, es := AfterEvent(s, c, ev, el, clock, errorModel, failDraw, fc0, q1, awake1);
  }

  /** What follows a handled event: nothing after a submission; otherwise
      a scheduling round unless the event was an idle-node failure, then
      the idle-node check. */
  method AfterEvent(s: Scheduler, c: Cluster, ev: Event, el0: seq<Event>, clock: Clock,
                    errorModel: bool, failDraw: nat -> nat, fc0: nat, ghost q: seq<Job>, ghost awake: int)
    returns (sched: seq<Decision>, el: seq<Event>, fc: nat, started: seq<Job>, ghost es: seq<Event>)
    requires Ready(s, c) && Simulated(s.policy)
    requires s.pendingList == q && c.nodes == awake
    requires QueueOk(el0, ev.time) && Count(el0, EmptyNodeFailure) == 0
    modifies s`pendingList, s`dispatchedJobs, s`sleepingNodes, s`sleepEndTime, c`nodes
    ensures Ready(s, c)
    ensures c.nodes + s.sleepingNodes + Total(el, NodesHeld) == old(c.nodes + s.sleepingNodes) + Total(el0, NodesHeld)
    ensures QueueOk(el, ev.time) && FailureAtHead(el, c.nodes) && Count(el, StartScheduler) >= Count(el0, StartScheduler)
    ensures forall j | j in started :: j.startTime == ev.time <= j.endTime
    ensures StartedInto(sched, el0, el, started, es, ev.time, errorModel)
    ensures ev.kind == JobSubmitted ==> el == el0
    ensures if ev.kind == JobSubmitted || ev.kind == EmptyNodeFailure then
              sched == [] && es == [] && s.pendingList == q && c.nodes == awake &&
              s.sleepingNodes == old(s.sleepingNodes) && s.dispatchedJobs == old(s.dispatchedJobs) &&
              s.sleepEndTime == old(s.sleepEndTime)
            else
              var a := Round(s.policy, q, awake, old(s.sleepingNodes), old(s.dispatchedJobs), old(s.sleepEndTime),
                             s.priceAt, s.idleWatt, c.config, ev.time, clock, ev.kind == JobCompleted);
              sched == a.sched && s.pendingList == a.pending && s.sleepingNodes == a.sleeping &&
              s.dispatchedJobs == a.dispatched && s.sleepEndTime == a.sleepEnd && c.nodes == a.awake - DecisionNodes(sched)
  {
    sched, el, fc, started, es := [], el0, fc0, [], [];
    if ev.kind == JobSubmitted {
      NoFailureAtHead(el, c.nodes);
      NothingStarted(el, ev.time, errorModel);
      return;
    }
    if ev.kind != EmptyNodeFailure {
      sched, el, fc, started, es := Reschedule(s, c, ev.time, ev.kind == JobCompleted, clock, el, errorModel, failDraw, fc);
    }
    ghost var el1 := el;
    el, fc := IdleCheck(c, ev.time, el, errorModel, failDraw, fc);
    assert multiset(el1) <= multiset(el);
  }

  /** The first popped event is the earliest submission of a job that fits. */
  lemma FirstSubmission(jobs: seq<Job>, capacity: int, el: seq<Event>)
    requires Sorted(el) && el != [] && multiset(el) == Submissions(Accepted(jobs, capacity))
    ensures forall j | j in jobs && j.nodes <= capacity :: el[0].time <= j.submissionTime
    ensures exists j | j in jobs && j.nodes <= capacity :: j.submissionTime == el[0].time
  {
    PopLeast(el);
    forall j | j in jobs && j.nodes <= capacity
      ensures el[0].time <= j.submissionTime
    {
      AcceptedExactly(jobs, capacity, j);
      assert j in multiset(jobs);
      assert j in multiset(Accepted(jobs, capacity));
      SubmissionsHas(Accepted(jobs, capacity), j);
      assert Submission(j) in multiset(el);
    }
    assert el[0] in multiset(el);
    SubmissionsOf(Accepted(jobs, capacity), el[0]);
    var j := el[0].job.value;
    AcceptedExactly(jobs, capacity, j);
    assert j in multiset(Accepted(jobs, capacity));
    assert j in jobs;
  }

  /** The initial queue is empty exactly when no job fits the cluster. */
  lemma InitialEmpty(jobs: seq<Job>, capacity: int, el: seq<Event>)
    requires multiset(el) == Submissions(Accepted(jobs, capacity))
    ensures el == [] <==> forall j | j in jobs :: j.nodes > capacity
  {
    SubmissionsCount(Accepted(jobs, capacity));
    AcceptedEmpty(jobs, capacity);
  }

  /** `simulate`: the whole run.  The free-node count is restored at the
      end; when the queue drains every node is back, free or asleep, and
      every submitted job was handed to the scheduler; the loop's times
      never go back, and every started job ends no earlier than it
      started. */
  method Simulate(c: Cluster, jobs: seq<Job>, s: Scheduler, prices: int -> real, clockAt: int -> Clock,
                  failDraw: nat -> nat, repairDraw: nat -> int, errorModel: bool, fuel: nat)
    returns (res: SimResult, started: seq<Job>)
    requires AllValid(jobs) && c.config.Valid() && c.config.nodeMinRepairTime >= 0 && c.nodes >= 0
    requires Simulated(s.policy) && s.pendingList == [] && s.sleepingNodes == 0
    modifies c, s
    ensures c.nodes == old(c.nodes)
    ensures res == ZeroDivision <==> old(c.nodes) == 0
    ensures res == NoJobs <==> old(c.nodes) != 0 && forall j | j in jobs :: j.nodes > old(c.nodes)
    ensures res.Ran? ==>
              res.starttime <= res.endtime &&
              (forall j | j in jobs && j.nodes <= old(c.nodes) :: res.starttime <= j.submissionTime) &&
              (exists j | j in jobs && j.nodes <= old(c.nodes) :: j.submissionTime == res.starttime)
    ensures res.Ran? && res.ending == AllCompleted ==> res.completed == |jobs|
    ensures res.Ran? && res.ending == QueueEmpty ==>
              res.freeAtEnd + res.sleepingAtEnd == old(c.nodes) && res.unsubmitted == 0
    ensures forall j | j in started :: res.Ran? && res.starttime <= j.startTime <= j.endTime
  {
    started := [];
    var total := c.nodes;
    var el := Setup(jobs, c.nodes);
    if c.nodes == 0 {
      return ZeroDivision, started;
    }
    InitialEmpty(jobs, c.nodes, el);
    s.SetCluster(c, prices);
    if el == [] {
      return NoJobs, started;
    }
    FirstSubmission(jobs, total, el);
    InitialEventsOk(jobs, total, el);
    NoneHeld(el);
    NoFailureAtHead(el, c.nodes);
    PopLeast(el);
    var starttime := el[0].time;
    var ending, time, completed, unsubmitted;
    ending, time, completed, unsubmitted, started :=
      EventLoop(s, c, el, starttime, total, |jobs|, clockAt, failDraw, repairDraw, errorModel, fuel);
    var freeAtEnd := c.nodes;
    c.nodes := total;
    res := Ran(ending, starttime, time, completed, freeAtEnd, s.sleepingNodes, unsubmitted);
  }

  /** The event loop: pop the earliest event, stop once every job has
      completed, otherwise handle it and run the scheduling round; the fuel
      bounds the number of events handled. */
  method EventLoop(s: Scheduler, c: Cluster, el0: seq<Event>, starttime: int, total: int, jobCount: int,
                   clockAt: int -> Clock, failDraw: nat -> nat, repairDraw: nat -> int, errorModel: bool, fuel: nat)
    returns (ending: Ending, time: int, completed: nat, unsubmitted: nat, started: seq<Job>)
    requires Ready(s, c) && Simulated(s.policy) && c.config.nodeMinRepairTime >= 0
    requires 0 <= starttime && QueueOk(el0, starttime) && FailureAtHead(el0, c.nodes)
    requires c.nodes + s.sleepingNodes + Total(el0, NodesHeld) == total
    modifies s`pendingList, s`dispatchedJobs, s`sleepingNodes, s`sleepEndTime, c`nodes
    ensures Ready(s, c) && starttime <= time
    ensures ending == AllCompleted ==> completed == jobCount
    ensures ending == QueueEmpty ==> c.nodes + s.sleepingNodes == total && unsubmitted == 0
    ensures forall j | j in started :: starttime <= j.startTime <= j.endTime
  {
    var el := el0;
    started := [];
    time := starttime;
    completed := 0;
    var buffer: seq<Job> := [];
    var armed := false;
    var oldtime := -1;
    var fc: nat, rc: nat := 0, 0;
    ending := QueueEmpty;
    var steps: nat := 0;
    while el != [] && steps < fuel
      invariant Ready(s, c) && Simulated(s.policy)
      invariant QueueOk(el, time) && FailureAtHead(el, c.nodes)
      invariant c.nodes + s.sleepingNodes + Total(el, NodesHeld) == total
      invariant Batching(buffer, armed, el)
      invariant starttime <= time && oldtime <= time && ending != OutOfFuel
      invariant ending == AllCompleted ==> completed == jobCount
      invariant forall j | j in started :: starttime <= j.startTime <= j.endTime
      decreases fuel - steps
    {
      PopLeast(el);
      var ev := el[0];
      el := el[1..];
      assert ev.time >= oldtime;
      time := ev.time;
      oldtime := time;
      if jobCount == completed {
        ending := AllCompleted;
        break;
      }
      var sched, more;
      ghost var es;
      sched, el, buffer, armed, fc, rc, more, es := Step(s, c, ev, el, buffer, armed, clockAt(time), errorModel, failDraw, fc,
                                                     repairDraw, rc);
      if ev.kind == JobCompleted {
        completed := completed + 1;
      }
      started := started + more;
      steps := steps + 1;
    }
    if ending != AllCompleted && el != [] {
      ending := OutOfFuel;
    }
    unsubmitted := |buffer|;
    if ending == QueueEmpty {
      CountPositive(el, StartScheduler);
    }
  }

}
