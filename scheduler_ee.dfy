/** The energy-efficient schedulers.  They put the nodes they cannot use to
    sleep: a sleeping node is taken out of the cluster's free count and
    woken again ("virtually") at the next call.  The backfill variants
    reuse the scan of the plain backfill schedulers; the price-aware ones
    admit strictly in queue order and may hold the head job back until a
    cheaper hour of the price horizon, asking to be called again then. */
module SchedulersEE {
  import opened Common
  import opened Configuration
  import opened Jobs
  import opened Schedulers
  import opened PriceWindows

  /** What an energy-efficient scheduler leaves behind: the schedule, the
      queue, the free (awake) and the sleeping node counts, the release
      projection and the end of a requested sleep. */
  datatype EEState = EEState(sched: seq<Decision>, pending: seq<Job>, awake: int, sleeping: int,
                             dispatched: seq<(int, int)>, sleepEnd: int)

  /** The state of the scheduler `s` as an `EEState`. */
  function StateOf(s: Scheduler, sched: seq<Decision>): EEState
    requires s.cluster != null
    reads s, s.cluster
  {
    EEState(sched, s.pendingList, s.cluster.nodes, s.sleepingNodes, s.dispatchedJobs, s.sleepEndTime)
  }

  /** Every one of `total` nodes is either awake or asleep, and the awake
      ones are exactly the nodes the started jobs take. */
  predicate Conserved(a: EEState, total: int)
  {
    a.awake + a.sleeping == total && a.awake == DecisionNodes(a.sched)
  }

  /** The decisions can be carried out, the queue keeps valid jobs and the
      sleeping count is not negative. */
  predicate Sound(a: EEState)
  {
    Startable(a.sched) && AllValid(a.pending) && a.sleeping >= 0
  }

  // ---------------------------------------------------------------------
  // Backfill with shutdown

  /** The projection sorted, with the entries that end after `time` dropped. */
  function ProjectedAt(d: seq<(int, int)>, time: int): seq<(int, int)>
  {
    var e := SortProjection(d);
    e[PurgeCount(e, time)..]
  }

  /** FIFOBackfillShutdown: every sleeping node is woken and the
      conservative scan runs over the sorted, purged projection; the nodes it
      leaves free go to sleep.  With an empty queue every node sleeps.
      Running out of free nodes leaves none asleep, and stopping at the skip
      limit projects none of the started jobs. */
  function Shutdown(q: seq<Job>, awake: int, sleeping: int, d: seq<(int, int)>, sleepEnd: int, time: int): EEState
  {
    if q == [] then EEState([], [], 0, awake + sleeping, d, sleepEnd)
    else
      ShutdownScan(q, awake + sleeping, ProjectedAt(d, time), sleepEnd, time)
  }

  /** The conservative scan of the shutdown scheduler over `woken` nodes and
      the purged projection `d'`, and the state it leaves. */
  function ShutdownScan(q: seq<Job>, woken: int, d': seq<(int, int)>, sleepEnd: int, time: int): EEState
  {
    AfterScan(Scan(q, woken, 0, None, 1000, true, DelayGuard(time, d')), woken, d', sleepEnd, time)
  }

  /** The shutdown scheduler's state after its scan `r` over `woken` nodes. */
  function AfterScan(r: ScanResult, woken: int, d': seq<(int, int)>, sleepEnd: int, time: int): EEState
  {
    var sched := Picks(r.picked);
    match r.exit
    case NoFreeNodes => EEState(sched, r.rest, woken, 0, d' + Releases(time, sched), sleepEnd)
    case LimitReached => EEState(sched, r.rest, woken - r.free, r.free, d', sleepEnd)
    case Exhausted => EEState(sched, r.rest, woken - r.free, r.free, d' + Releases(time, sched), sleepEnd)
  }

  /** What a scan leaves free is what its started jobs did not take, and
      nothing when it ran out of free nodes. */
  lemma {:induction false} ScanBalance(q: seq<Job>, free: int, skipped: nat, head: Option<Job>, limit: int,
                                       stopAtZero: bool, guard: Guard)
    ensures var r := Scan(q, free, skipped, head, limit, stopAtZero, guard);
            r.free == free - SumNodes(r.picked) && (r.exit == NoFreeNodes ==> r.free == 0)
    decreases |q|
  {
    if q != [] && !(stopAtZero && free == 0) {
      if Skips(q[0], free, head, guard) {
        if skipped + 1 <= limit {
          ScanBalance(q[1..], free, skipped + 1, if head.None? then Some(q[0]) else head, limit, stopAtZero, guard);
        }
      } else {
        ScanBalance(q[1..], free - q[0].nodes, skipped, head, limit, stopAtZero, guard);
        SumNodesCons(q[0], Scan(q[1..], free - q[0].nodes, skipped, head, limit, stopAtZero, guard).picked);
      }
    }
  }

  /** The shutdown scheduler keeps every node either awake or asleep, and
      exactly the started jobs' nodes awake. */
  lemma ShutdownConserves(q: seq<Job>, awake: int, sleeping: int, d: seq<(int, int)>, sleepEnd: int, time: int)
    ensures Conserved(Shutdown(q, awake, sleeping, d, sleepEnd, time), awake + sleeping)
    ensures Shutdown(q, awake, sleeping, d, sleepEnd, time).sleepEnd == sleepEnd
  {
    if q != [] {
      var d' := ProjectedAt(d, time);
      assert Shutdown(q, awake, sleeping, d, sleepEnd, time) == ShutdownScan(q, awake + sleeping, d', sleepEnd, time);
      ShutdownScanConserves(q, awake + sleeping, d', sleepEnd, time);
    }
  }

  lemma ShutdownScanConserves(q: seq<Job>, woken: int, d': seq<(int, int)>, sleepEnd: int, time: int)
    ensures Conserved(ShutdownScan(q, woken, d', sleepEnd, time), woken)
    ensures ShutdownScan(q, woken, d', sleepEnd, time).sleepEnd == sleepEnd
  {
    var g := DelayGuard(time, d');
    ScanBalance(q, woken, 0, None, 1000, true, g);
    PicksNodes(Scan(q, woken, 0, None, 1000, true, g).picked);
  }

  /** The started jobs and the jobs left queued split the queue `q`, each
      keeping its queue order. */
  ghost predicate SplitsQueue(a: EEState, q: seq<Job>)
  {
    exists picked :: a.sched == Picks(picked) && Interleaving(picked, a.pending, q)
  }

  lemma ShutdownSplitsQueue(q: seq<Job>, awake: int, sleeping: int, d: seq<(int, int)>, sleepEnd: int, time: int)
    requires AllValid(q)
    ensures SplitsQueue(Shutdown(q, awake, sleeping, d, sleepEnd, time), q)
  {
    if q == [] {
      var a := EEState([], [], 0, awake + sleeping, d, sleepEnd);
      assert a.sched == Picks([]) && Interleaving([], a.pending, q);
    } else {
      var a := ShutdownScan(q, awake + sleeping, ProjectedAt(d, time), sleepEnd, time);
      ShutdownScanSplits(q, awake + sleeping, ProjectedAt(d, time), sleepEnd, time);
      assert Shutdown(q, awake, sleeping, d, sleepEnd, time) == a;
    }
  }

  /** The conservative scan over the sorted, purged projection. */
  method ConservativeScan(s: Scheduler, time: int) returns (picked: seq<Job>, free: int, exit: ScanExit)
    requires s.cluster != null
    modifies s`pendingList, s`dispatchedJobs
    ensures s.dispatchedJobs == ProjectedAt(old(s.dispatchedJobs), time)
    ensures var r := Scan(old(s.pendingList), s.cluster.nodes, 0, None, 1000, true, DelayGuard(time, s.dispatchedJobs));
            picked == r.picked && s.pendingList == r.rest && free == r.free && exit == r.exit
  {
    s.dispatchedJobs := SortProjection(s.dispatchedJobs);
    s.PurgeExpiredJobs(time);
    picked, free, exit := s.ScanPending(time, 1000, true, true);
  }

  /** The shutdown scheduler starts valid jobs, keeps valid jobs queued and
      leaves no negative sleeping count. */
  lemma ShutdownStartable(q: seq<Job>, awake: int, sleeping: int, d: seq<(int, int)>, sleepEnd: int, time: int)
    requires AllValid(q) && awake + sleeping >= 0
    ensures Sound(Shutdown(q, awake, sleeping, d, sleepEnd, time))
  {
    if q != [] {
      ShutdownScanSound(q, awake + sleeping, ProjectedAt(d, time), sleepEnd, time);
    }
  }

  lemma ShutdownScanSplits(q: seq<Job>, woken: int, d': seq<(int, int)>, sleepEnd: int, time: int)
    requires AllValid(q)
    ensures SplitsQueue(ShutdownScan(q, woken, d', sleepEnd, time), q)
  {
    var g := DelayGuard(time, d');
    ScanAccounting(q, woken, 0, None, 1000, true, g);
    var r := Scan(q, woken, 0, None, 1000, true, g);
    var a := ShutdownScan(q, woken, d', sleepEnd, time);
    assert a.sched == Picks(r.picked) && Interleaving(r.picked, a.pending, q);
  }

  lemma ShutdownScanSound(q: seq<Job>, woken: int, d': seq<(int, int)>, sleepEnd: int, time: int)
    requires AllValid(q) && woken >= 0
    ensures Sound(ShutdownScan(q, woken, d', sleepEnd, time))
  {
    ScanStartable(q, woken, 1000, true, DelayGuard(time, d'));
  }

  method TryToScheduleShutdown(s: Scheduler, time: int) returns (sched: seq<Decision>)
    requires s.cluster != null
    modifies s`pendingList, s`dispatchedJobs, s`sleepingNodes, s.cluster`nodes
    ensures StateOf(s, sched) == Shutdown(old(s.pendingList), old(s.cluster.nodes), old(s.sleepingNodes),
                                           old(s.dispatchedJobs), s.sleepEndTime, time)
  {
    var c := s.cluster;
    if s.pendingList == [] {
      c.nodes := c.nodes + s.sleepingNodes;
      s.sleepingNodes := c.nodes;
      c.nodes := 0;
      return [];
    }
    ghost var d' := ProjectedAt(s.dispatchedJobs, time);
    ghost var woken := c.nodes + s.sleepingNodes;
    ghost var r := Scan(s.pendingList, woken, 0, None, 1000, true, DelayGuard(time, d'));
    assert Shutdown(s.pendingList, c.nodes, s.sleepingNodes, s.dispatchedJobs, s.sleepEndTime, time)
        == AfterScan(r, woken, d', s.sleepEndTime, time);
    c.nodes := c.nodes + s.sleepingNodes;
    s.sleepingNodes := 0;
    var picked, free, exit := ConservativeScan(s, time);
    assert picked == r.picked && s.pendingList == r.rest && free == r.free && exit == r.exit && s.dispatchedJobs == d';
    sched := Picks(picked);
    if exit == NoFreeNodes {
      s.DispatchJobs(time, sched);
      return;
    }
    s.sleepingNodes := free;
    c.nodes := c.nodes - free;
    if exit == Exhausted {
      s.DispatchJobs(time, sched);
    }
  }

  /** FIFOBackfillShutdownDelay: the plain scan, without the stop at zero
      free nodes, over the woken nodes; it starts nothing when no node is
      there at all, and the nodes it leaves free go to sleep. */
  function ShutdownDelay(q: seq<Job>, awake: int, sleeping: int, d: seq<(int, int)>, sleepEnd: int): EEState
  {
    if q == [] then EEState([], [], 0, awake + sleeping, d, sleepEnd)
    else
      var woken := awake + sleeping;
      if woken == 0 then EEState([], q, 0, 0, d, sleepEnd)
      else
        var r := Scan(q, woken, 0, None, 1000, false, NoGuard);
        EEState(Picks(r.picked), r.rest, woken - r.free, r.free, d, sleepEnd)
  }

  lemma ShutdownDelayConserves(q: seq<Job>, awake: int, sleeping: int, d: seq<(int, int)>, sleepEnd: int)
    ensures Conserved(ShutdownDelay(q, awake, sleeping, d, sleepEnd), awake + sleeping)
    ensures var a := ShutdownDelay(q, awake, sleeping, d, sleepEnd); a.dispatched == d && a.sleepEnd == sleepEnd
  {
    if q != [] && awake + sleeping != 0 {
      ScanBalance(q, awake + sleeping, 0, None, 1000, false, NoGuard);
      PicksNodes(Scan(q, awake + sleeping, 0, None, 1000, false, NoGuard).picked);
    }
  }

  /** Without the stop at zero, the scan ends only at the skip limit or at
      the end of the queue, and then every job left is too big. */
  lemma ShutdownDelayLeavesBig(q: seq<Job>, awake: int, sleeping: int, d: seq<(int, int)>, sleepEnd: int)
    requires AllValid(q)
    ensures var a := ShutdownDelay(q, awake, sleeping, d, sleepEnd);
            q != [] && awake + sleeping != 0 && |a.pending| <= 1000 ==> forall j | j in a.pending :: a.sleeping < j.nodes
  {
    if q != [] && awake + sleeping != 0 {
      ScanExits(q, awake + sleeping, 0, None, 1000, false, NoGuard);
    }
  }

  lemma ShutdownDelayStartable(q: seq<Job>, awake: int, sleeping: int, d: seq<(int, int)>, sleepEnd: int)
    requires AllValid(q) && awake + sleeping >= 0
    ensures Sound(ShutdownDelay(q, awake, sleeping, d, sleepEnd))
  {
    if q != [] && awake + sleeping != 0 {
      ScanStartable(q, awake + sleeping, 1000, false, NoGuard);
    }
  }

  method TryToScheduleShutdownDelay(s: Scheduler, time: int) returns (sched: seq<Decision>)
    requires s.cluster != null
    modifies s`pendingList, s`sleepingNodes, s.cluster`nodes
    ensures StateOf(s, sched) == ShutdownDelay(old(s.pendingList), old(s.cluster.nodes), old(s.sleepingNodes),
                                                s.dispatchedJobs, s.sleepEndTime)
  {
    var c := s.cluster;
    if s.pendingList == [] {
      s.sleepingNodes := s.sleepingNodes + c.nodes;
      c.nodes := 0;
      return [];
    }
    c.nodes := c.nodes + s.sleepingNodes;
    s.sleepingNodes := 0;
    if c.nodes == 0 {
      return [];
    }
    var picked, free, exit := s.ScanPending(time, 1000, false, false);
    sched := Picks(picked);
    s.sleepingNodes := free;
    c.nodes := c.nodes - free;
  }

  // ---------------------------------------------------------------------
  // Price-aware admission

  /** The three price-aware schedulers: FIFOPriceAwareShutdown looks ahead
      only for jobs that have waited at most the horizon, and
      EnforcePriceAwareShutdown charges no idle power and uses its own window
      rules. */
  datatype Variant = AgeLimited | Unlimited | Enforcing

  /** Everything a price-aware decision depends on besides the job. */
  datatype PriceContext = PriceContext(
    variant: Variant,
    hoursAhead: int,
    price: seq<real>,   // price[i]: the price i hours from now
    time: int,
    tSec: int,          // seconds until the next full hour
    idleWatt: real,
    config: ClusterConfig)
  {
    predicate Valid()
    {
      config.Valid() && |price| == (if hoursAhead > 0 then hoursAhead else 0) && 1 <= tSec <= 3600
    }
  }

  /** The prices of the horizon, one per hour from `time` on. */
  function HorizonPrices(priceAt: int -> real, time: int, hoursAhead: int): (p: seq<real>)
    ensures |p| == if hoursAhead > 0 then hoursAhead else 0
    ensures forall i | 0 <= i < |p| :: p[i] == priceAt(time + i * 3600)
  {
    seq(if hoursAhead > 0 then hoursAhead else 0, i => priceAt(time + i * 3600))
  }

  method Horizon(priceAt: int -> real, time: int, hoursAhead: int) returns (price: seq<real>)
    ensures price == HorizonPrices(priceAt, time, hoursAhead)
  {
    price := [];
    var i := 0;
    while i < hoursAhead
      invariant 0 <= i <= if hoursAhead > 0 then hoursAhead else 0
      invariant price == HorizonPrices(priceAt, time, i)
    {
      assert HorizonPrices(priceAt, time, i + 1) == price + [priceAt(time + i * 3600)];
      price := price + [priceAt(time + i * 3600)];
      i := i + 1;
    }
    assert forall k | 0 <= k < |price| :: price[k] == HorizonPrices(priceAt, time, hoursAhead)[k];
  }

  function MakeContext(p: Policy, priceAt: int -> real, idleWatt: real, config: ClusterConfig, time: int,
                       clock: Clock): PriceContext
    requires PriceAware(p)
  {
    PriceContext(if p.FIFOPriceAwareShutdown? then AgeLimited else if p.PriceAwareShutdown? then Unlimited else Enforcing,
                 p.hoursAhead, HorizonPrices(priceAt, time, p.hoursAhead), time, SecondsToFullHour(clock),
                 idleWatt, config)
  }

  /** The context a price-aware scheduler builds at `time`: its variant,
      the prices of the coming hours and the seconds to the next full hour. */
  method BuildContext(p: Policy, priceAt: int -> real, idleWatt: real, config: ClusterConfig, time: int,
                      clock: Clock) returns (ctx: PriceContext)
    requires PriceAware(p)
    ensures ctx == MakeContext(p, priceAt, idleWatt, config, time, clock)
  {
    var price := Horizon(priceAt, time, p.hoursAhead);
    var variant := if p.FIFOPriceAwareShutdown? then AgeLimited
                   else if p.PriceAwareShutdown? then Unlimited else Enforcing;
    ctx := PriceContext(variant, p.hoursAhead, price, time, SecondsToFullHour(clock), idleWatt, config);
  }

  /** The cost inputs of a job: the enforcing variant counts no idle power. */
  function CostsOf(ctx: PriceContext, job: Job): Costs
    requires ctx.config.Valid()
  {
    var idle := if ctx.variant == Enforcing then 0.0 else ctx.idleWatt * job.nodes as real;
    Costs(PowerConsumed(job, 4, ctx.config) + idle, idle, job.durationMin, ctx.tSec)
  }

  /** Whether the head job may be held back at all: its whole hours and two
      more fit into the horizon, and (age-limited variant) it has not
      waited longer than the horizon. */
  predicate MayDelay(ctx: PriceContext, job: Job)
  {
    HoursNeeded(job.durationMin) + 2 < ctx.hoursAhead &&
    (ctx.variant == AgeLimited ==> ctx.time - job.submissionTime <= 3600 * ctx.hoursAhead)
  }

  /** How long to hold the head job back, if at all. */
  function WaitFor(ctx: PriceContext, job: Job): Option<int>
    requires ctx.Valid() && ValidJob(job)
  {
    if !MayDelay(ctx, job) then None
    else
      var c := CostsOf(ctx, job);
      var now := NowCost(ctx.price, c);
      var ch := if ctx.variant == Enforcing then EnforceChoice(ctx.price, c, now) else PriceAwareChoice(ctx.price, c, now);
      if ch.hour != 0 then Some(Delay(ch, c)) else None
  }

  /** A hold-back is positive and ends within the horizon. */
  lemma WaitForBounds(ctx: PriceContext, job: Job)
    requires ctx.Valid() && ValidJob(job)
    ensures WaitFor(ctx, job).Some? ==> MayDelay(ctx, job) && 0 < WaitFor(ctx, job).value <= 3600 * (ctx.hoursAhead - 1)
  {
    if MayDelay(ctx, job) {
      var c := CostsOf(ctx, job);
      var now := NowCost(ctx.price, c);
      ChoicesFeasible(ctx.price, c, now);
      var ch := if ctx.variant == Enforcing then EnforceChoice(ctx.price, c, now) else PriceAwareChoice(ctx.price, c, now);
      if ch.hour != 0 {
        DelayBounds(ch, c, |ctx.price|);
      }
    }
  }

  /** A job is held back only when some window of the horizon is strictly
      cheaper than starting it now. */
  lemma WaitForOnlyIfCheaper(ctx: PriceContext, job: Job)
    requires ctx.Valid() && ValidJob(job) && ctx.variant != Enforcing
    ensures WaitFor(ctx, job).Some? ==>
              var c := CostsOf(ctx, job);
              var ch := PriceAwareChoice(ctx.price, c, NowCost(ctx.price, c));
              ch.hour != 0 && ch.cost < NowCost(ctx.price, c) &&
              (job.durationMin < 3600 ==> 1 <= ch.hour < |ctx.price| && ch.cost == ShortCost(ctx.price, c, ch.hour)) &&
              (job.durationMin >= 3600 ==>
                 1 <= ch.hour < LongWindows(ctx.price, c) && ch.cost == LongCost(ctx.price, c, ch.hour))
  {
    if MayDelay(ctx, job) {
      var c := CostsOf(ctx, job);
      var now := NowCost(ctx.price, c);
      if job.durationMin < 3600 {
        ShortBestCheapest(ctx.price, c, now, |ctx.price|);
      } else {
        LongSearchCheapest(ctx.price, c, now, LongWindows(ctx.price, c));
      }
    }
  }

  method DecideWait(ctx: PriceContext, job: Job) returns (wait: Option<int>)
    requires ctx.Valid() && ValidJob(job)
    ensures wait == WaitFor(ctx, job)
  {
    var hoursNeeded := HoursNeeded(job.durationMin);
    var mayDelay := hoursNeeded + 2 < ctx.hoursAhead;
    if ctx.variant == AgeLimited {
      mayDelay := ctx.time - job.submissionTime <= 3600 * ctx.hoursAhead && mayDelay;
    }
    if !mayDelay {
      return None;
    }
    var c := CostsOf(ctx, job);
    var now := NowCostOf(ctx.price, c);
    var ch: Choice;
    if ctx.variant == Enforcing {
      if job.durationMin < 3600 {
        var step, minT := CheapestHour(ctx.price);
        var m := minT * c.power * c.Rem() as real / 1000.0 / 3600.0;
        ch := if m < now then Choice(step, true, m) else Choice(0, false, now);
      } else {
        ch := EnforceLongSearch(ctx.price, c, now);
      }
    } else {
      if job.durationMin < 3600 {
        ch := ShortSearch(ctx.price, c, now);
      } else {
        ch := LongSearch(ctx.price, c, now);
      }
    }
    if ch.hour != 0 {
      return Some(Delay(ch, c));
    }
    return None;
  }

  /** How the price-aware loop ended: no free node left, the head job does
      not fit, the queue is empty, or the head job is held back. */
  datatype PriceExit = RanOut | Blocked | Emptied | Sleeps(delay: int)

  datatype PriceResult = PriceResult(picked: seq<Job>, rest: seq<Job>, free: int, exit: PriceExit)

  /** The hold-back decision of a context, for every job. */
  function Decider(ctx: PriceContext): Job -> Option<int>
  {
    (j: Job) => if ctx.Valid() && ValidJob(j) then WaitFor(ctx, j) else None
  }

  /** The strict-FIFO price-aware admission over queue `q` with `free`
      nodes; `decide` says how long to hold a fitting head job back. */
  function PriceRun(q: seq<Job>, free: int, decide: Job -> Option<int>): PriceResult
    decreases |q|
  {
    if q == [] then PriceResult([], [], free, Emptied)
    else if free == 0 then PriceResult([], q, free, RanOut)
    else if free < q[0].nodes then PriceResult([], q, free, Blocked)
    else
      match decide(q[0])
      case Some(d) => PriceResult([], q, free, Sleeps(d))
      case None =>
        var r := PriceRun(q[1..], free - q[0].nodes, decide);
        r.(picked := [q[0]] + r.picked)
  }

  /** The schedule a run hands back: its started jobs, then the request to
      be called again when it holds the head job back. */
  function Outcome(r: PriceResult): seq<Decision>
  {
    Picks(r.picked) + if r.exit.Sleeps? then [SleepScheduling(r.exit.delay)] else []
  }

  /** The price-aware admission starts a prefix of the queue, none of whose
      jobs was worth holding back, with exactly the nodes no longer free. */
  lemma {:induction false} PriceRunPrefix(q: seq<Job>, free: int, decide: Job -> Option<int>)
    ensures var r := PriceRun(q, free, decide);
            |r.picked| <= |q| && r.picked == q[..|r.picked|] && r.rest == q[|r.picked|..] &&
            r.free == free - SumNodes(r.picked) && (free >= 0 ==> r.free >= 0) &&
            forall i | 0 <= i < |r.picked| :: decide(r.picked[i]) == None
    decreases |q|
  {
    PriceRunShape(q, free, decide);
    PriceRunFree(q, free, decide);
    PriceRunHeld(q, free, decide);
  }

  lemma {:induction false} PriceRunShape(q: seq<Job>, free: int, decide: Job -> Option<int>)
    ensures var r := PriceRun(q, free, decide);
            |r.picked| <= |q| && r.picked == q[..|r.picked|] && r.rest == q[|r.picked|..]
    decreases |q|
  {
    if q != [] && free != 0 && free >= q[0].nodes && decide(q[0]).None? {
      var t := PriceRun(q[1..], free - q[0].nodes, decide);
      PriceRunShape(q[1..], free - q[0].nodes, decide);
      assert q[..1 + |t.picked|] == [q[0]] + q[1..][..|t.picked|];
      assert q[1 + |t.picked|..] == q[1..][|t.picked|..];
    }
  }

  lemma {:induction false} PriceRunFree(q: seq<Job>, free: int, decide: Job -> Option<int>)
    ensures var r := PriceRun(q, free, decide);
            r.free == free - SumNodes(r.picked) && (free >= 0 ==> r.free >= 0)
    decreases |q|
  {
    if q != [] && free != 0 && free >= q[0].nodes && decide(q[0]).None? {
      var t := PriceRun(q[1..], free - q[0].nodes, decide);
      PriceRunFree(q[1..], free - q[0].nodes, decide);
      SumNodesCons(q[0], t.picked);
    }
  }

  lemma {:induction false} PriceRunHeld(q: seq<Job>, free: int, decide: Job -> Option<int>)
    ensures forall j | j in PriceRun(q, free, decide).picked :: decide(j) == None
    decreases |q|
  {
    if q != [] && free != 0 && free >= q[0].nodes && decide(q[0]).None? {
      var r, t := PriceRun(q, free, decide), PriceRun(q[1..], free - q[0].nodes, decide);
      PriceRunHeld(q[1..], free - q[0].nodes, decide);
      assert r.picked == [q[0]] + t.picked;
    }
  }

  /** Why the admission stopped, as its exit says. */
  lemma {:induction false} PriceRunExit(q: seq<Job>, free: int, decide: Job -> Option<int>)
    ensures var r := PriceRun(q, free, decide);
            (r.exit == RanOut ==> r.free == 0 && r.rest != []) &&
            (r.exit == Blocked ==> r.rest != [] && r.free < r.rest[0].nodes) &&
            (r.exit == Emptied ==> r.rest == []) &&
            (r.exit.Sleeps? ==> (r.rest != [] && r.free != 0 && r.rest[0].nodes <= r.free &&
                                decide(r.rest[0]) == Some(r.exit.delay)))
    decreases |q|
  {
    if q != [] && free != 0 && free >= q[0].nodes && decide(q[0]).None? {
      PriceRunExit(q[1..], free - q[0].nodes, decide);
    }
  }

  /** A sleep the admission requests is positive and ends within the
      horizon. */
  lemma PriceRunDelay(q: seq<Job>, free: int, ctx: PriceContext)
    requires ctx.Valid() && AllValid(q)
    ensures var r := PriceRun(q, free, Decider(ctx));
            r.exit.Sleeps? ==> 0 < r.exit.delay <= 3600 * (ctx.hoursAhead - 1)
  {
    var r := PriceRun(q, free, Decider(ctx));
    if r.exit.Sleeps? {
      PriceRunPrefix(q, free, Decider(ctx));
      PriceRunExit(q, free, Decider(ctx));
      assert r.rest[0] == q[|r.picked|];
      WaitForBounds(ctx, r.rest[0]);
    }
  }

  /** The nodes the started jobs occupy are the nodes no longer free. */
  lemma PriceRunNodes(q: seq<Job>, free: int, decide: Job -> Option<int>)
    ensures var r := PriceRun(q, free, decide);
            DecisionNodes(Outcome(r)) == free - r.free
  {
    var r := PriceRun(q, free, decide);
    PriceRunPrefix(q, free, decide);
    PicksNodes(r.picked);
    if r.exit.Sleeps? {
      DecisionNodesSnoc(Picks(r.picked), SleepScheduling(r.exit.delay));
    } else {
      assert Outcome(r) == Picks(r.picked);
    }
  }

  function Prepend(picked: seq<Job>, r: PriceResult): PriceResult
  {
    r.(picked := picked + r.picked)
  }

  /** How a price-aware run leaves the nodes: with no free node left none
      sleeps, otherwise the free ones do; a held-back head job records when
      the requested sleep ends. */
  function Settle(r: PriceResult, woken: int, d: seq<(int, int)>, sleepEnd: int, time: int): EEState
  {
    var sleeping := if r.exit == RanOut then 0 else r.free;
    EEState(Outcome(r), r.rest, woken - sleeping, sleeping, d, if r.exit.Sleeps? then time + r.exit.delay else sleepEnd)
  }

  /** The started jobs hold exactly the nodes no longer free, and running
      out leaves none free. */
  predicate Balanced(r: PriceResult, free: int)
  {
    DecisionNodes(Outcome(r)) == free - r.free && (r.exit == RanOut ==> r.free == 0)
  }

  lemma PriceRunBalanced(q: seq<Job>, free: int, decide: Job -> Option<int>)
    ensures Balanced(PriceRun(q, free, decide), free)
  {
    PriceRunExit(q, free, decide);
    PriceRunNodes(q, free, decide);
  }

  lemma SettleBalanced(r: PriceResult, woken: int, d: seq<(int, int)>, sleepEnd: int, time: int)
    requires Balanced(r, woken)
    ensures Conserved(Settle(r, woken, d, sleepEnd, time), woken) && Settle(r, woken, d, sleepEnd, time).dispatched == d
  {
  }

  /** The decisions can be carried out, the queue keeps valid jobs and no
      free count is negative. */
  predicate Sane(r: PriceResult)
  {
    Startable(Outcome(r)) && AllValid(r.rest) && r.free >= 0
  }

  /** A price-aware run over valid jobs starts valid jobs, keeps valid
      jobs queued, asks for positive sleeps only and leaves no negative
      free count. */
  lemma PriceRunSane(q: seq<Job>, free: int, ctx: PriceContext)
    requires AllValid(q) && free >= 0 && ctx.Valid()
    ensures Sane(PriceRun(q, free, Decider(ctx)))
  {
    var r := PriceRun(q, free, Decider(ctx));
    PriceRunPrefix(q, free, Decider(ctx));
    PriceRunDelay(q, free, ctx);
    assert AllValid(r.picked) by {
      forall i | 0 <= i < |r.picked| ensures ValidJob(r.picked[i]) { assert r.picked[i] == q[i]; }
    }
    assert AllValid(r.rest) by {
      forall i | 0 <= i < |r.rest| ensures ValidJob(r.rest[i]) { assert r.rest[i] == q[|r.picked| + i]; }
    }
    PicksStartable(r.picked);
    if r.exit.Sleeps? {
      StartableConcat(Picks(r.picked), [SleepScheduling(r.exit.delay)]);
    } else {
      assert Outcome(r) == Picks(r.picked);
    }
  }

  lemma SettleSane(r: PriceResult, woken: int, d: seq<(int, int)>, sleepEnd: int, time: int)
    requires Sane(r)
    ensures Sound(Settle(r, woken, d, sleepEnd, time))
  {
  }

  /** The admission loop of the price-aware schedulers over the awake
      nodes: it starts head jobs in queue order until none is left, none is
      free, the head does not fit or the head is held back. */
  method PriceAdmit(s: Scheduler, ctx: PriceContext, ghost q: seq<Job>, ghost woken: int)
    returns (picked: seq<Job>, free: int, exit: PriceExit)
    requires s.cluster != null && ctx.Valid() && AllValid(s.pendingList)
    requires s.pendingList == q && s.cluster.nodes == woken
    modifies s`pendingList
    ensures PriceResult(picked, s.pendingList, free, exit) == Run(q, woken, ctx)
  {
    ghost var decide := Decider(ctx);
    ghost var whole := PriceRun(q, woken, decide);
    picked := [];
    free := s.cluster.nodes;
    while s.pendingList != []
      invariant AllValid(s.pendingList)
      invariant whole == Prepend(picked, PriceRun(s.pendingList, free, decide))
      decreases |s.pendingList|
    {
      var job := s.pendingList[0];
      if free == 0 {
        return picked, free, RanOut;
      }
      if free < job.nodes {
        return picked, free, Blocked;
      }
      AllValidTail(s.pendingList);
      var wait := DecideWait(ctx, job);
      if wait.Some? {
        return picked, free, Sleeps(wait.value);
      }
      ghost var tail := PriceRun(s.pendingList[1..], free - job.nodes, decide);
      assert (picked + [job]) + tail.picked == picked + ([job] + tail.picked);
      free := free - job.nodes;
      s.pendingList := s.pendingList[1..];
      picked := picked + [job];
    }
    return picked, free, Emptied;
  }

  /** The shared part of the price-aware schedulers, entered with the nodes
      awake: the admission loop, then the free nodes go to sleep unless none
      is left, and a held-back head job adds the request to be called again
      after the delay. */
  method PriceLoop(s: Scheduler, ctx: PriceContext, ghost q: seq<Job>, ghost awake: int, ghost sleeping: int,
                   ghost sleepEnd: int)
    returns (sched: seq<Decision>)
    requires s.cluster != null && ctx.Valid() && AllValid(s.pendingList) && s.sleepingNodes == 0
    requires s.pendingList == q && s.cluster.nodes == awake + sleeping && s.sleepEndTime == sleepEnd
    modifies s`pendingList, s`sleepingNodes, s`sleepEndTime, s.cluster`nodes
    ensures StateOf(s, sched) == Admit(q, awake, sleeping, s.dispatchedJobs, sleepEnd, ctx)
  {
    var picked, free, exit := PriceAdmit(s, ctx, q, awake + sleeping);
    sched := Park(s, picked, free, exit, ctx.time, awake + sleeping, sleepEnd);
  }

  /** What the price-aware schedulers do once the admission loop has ended:
      unless no node is free, the free ones go to sleep, and a held-back head
      job adds the request to be called again after the delay. */
  method Park(s: Scheduler, picked: seq<Job>, free: int, exit: PriceExit, time: int, ghost woken: int,
              ghost sleepEnd: int)
    returns (sched: seq<Decision>)
    requires s.cluster != null && s.sleepingNodes == 0 && s.cluster.nodes == woken && s.sleepEndTime == sleepEnd
    modifies s`sleepingNodes, s`sleepEndTime, s.cluster`nodes
    ensures StateOf(s, sched) == Settle(PriceResult(picked, s.pendingList, free, exit), woken, s.dispatchedJobs, sleepEnd, time)
  {
    sched := Picks(picked);
    if exit == RanOut {
      return;
    }
    s.sleepingNodes := free;
    s.cluster.nodes := s.cluster.nodes - free;
    if exit.Sleeps? {
      s.sleepEndTime := time + exit.delay;
      sched := sched + [SleepScheduling(exit.delay)];
    }
  }

  /** The price-aware run of a context over queue `q` and `free` nodes. */
  function Run(q: seq<Job>, free: int, ctx: PriceContext): PriceResult
  {
    PriceRun(q, free, Decider(ctx))
  }

  /** A price-aware admission over the woken `awake + sleeping` nodes. */
  function Admit(q: seq<Job>, awake: int, sleeping: int, d: seq<(int, int)>, sleepEnd: int, ctx: PriceContext): EEState
  {
    Settle(Run(q, awake + sleeping, ctx), awake + sleeping, d, sleepEnd, ctx.time)
  }

  /** Admission keeps every woken node awake or asleep, with exactly the
      started jobs' nodes awake, and leaves the projection alone. */
  lemma AdmitConserves(q: seq<Job>, awake: int, sleeping: int, d: seq<(int, int)>, sleepEnd: int, ctx: PriceContext)
    ensures Conserved(Admit(q, awake, sleeping, d, sleepEnd, ctx), awake + sleeping)
    ensures Admit(q, awake, sleeping, d, sleepEnd, ctx).dispatched == d
  {
    SettleRunBalanced(q, awake + sleeping, Decider(ctx), d, sleepEnd, ctx.time);
  }

  /** The same for any decider. */
  lemma SettleRunBalanced(q: seq<Job>, woken: int, decide: Job -> Option<int>, d: seq<(int, int)>, sleepEnd: int,
                          time: int)
    ensures var a := Settle(PriceRun(q, woken, decide), woken, d, sleepEnd, time);
            Conserved(a, woken) && a.dispatched == d
  {
    PriceRunBalanced(q, woken, decide);
    SettleBalanced(PriceRun(q, woken, decide), woken, d, sleepEnd, time);
  }

  /** Admission over valid jobs can be carried out and leaves valid jobs
      queued. */
  lemma AdmitSound(q: seq<Job>, awake: int, sleeping: int, d: seq<(int, int)>, sleepEnd: int, ctx: PriceContext)
    requires AllValid(q) && awake + sleeping >= 0 && ctx.Valid()
    ensures Sound(Admit(q, awake, sleeping, d, sleepEnd, ctx))
  {
    var woken := awake + sleeping;
    PriceRunSane(q, woken, ctx);
    SettleSane(Run(q, woken, ctx), woken, d, sleepEnd, ctx.time);
  }

  /** FIFOPriceAwareShutdown and PriceAwareShutdown: every sleeping node is
      woken; with an empty queue every node sleeps, and when the head job does
      not fit (or, for the unlimited variant, while a requested sleep lasts)
      every node sleeps and nothing starts. */
  function PriceShutdown(q: seq<Job>, awake: int, sleeping: int, d: seq<(int, int)>, sleepEnd: int,
                         ctx: PriceContext): EEState
  {
    if q == [] then EEState([], [], 0, awake + sleeping, d, sleepEnd)
    else
      var woken := awake + sleeping;
      if woken < q[0].nodes || (ctx.variant == Unlimited && ctx.time < sleepEnd) then EEState([], q, 0, woken, d, sleepEnd)
      else Admit(q, awake, sleeping, d, sleepEnd, ctx)
  }

  lemma PriceShutdownConserves(q: seq<Job>, awake: int, sleeping: int, d: seq<(int, int)>, sleepEnd: int,
                               ctx: PriceContext)
    ensures Conserved(PriceShutdown(q, awake, sleeping, d, sleepEnd, ctx), awake + sleeping)
    ensures PriceShutdown(q, awake, sleeping, d, sleepEnd, ctx).dispatched == d
  {
    var woken := awake + sleeping;
    if q != [] && !(woken < q[0].nodes || (ctx.variant == Unlimited && ctx.time < sleepEnd)) {
      AdmitConserves(q, awake, sleeping, d, sleepEnd, ctx);
    }
  }

  lemma PriceShutdownStartable(q: seq<Job>, awake: int, sleeping: int, d: seq<(int, int)>, sleepEnd: int,
                               ctx: PriceContext)
    requires AllValid(q) && awake + sleeping >= 0 && ctx.Valid()
    ensures Sound(PriceShutdown(q, awake, sleeping, d, sleepEnd, ctx))
  {
    var woken := awake + sleeping;
    if q != [] && !(woken < q[0].nodes || (ctx.variant == Unlimited && ctx.time < sleepEnd)) {
      AdmitSound(q, awake, sleeping, d, sleepEnd, ctx);
    }
  }

  method TryToSchedulePriceAware(s: Scheduler, time: int, clock: Clock) returns (sched: seq<Decision>)
    requires s.cluster != null && (s.policy.FIFOPriceAwareShutdown? || s.policy.PriceAwareShutdown?)
    requires s.cluster.config.Valid() && AllValid(s.pendingList)
    modifies s`pendingList, s`sleepingNodes, s`sleepEndTime, s.cluster`nodes
    ensures StateOf(s, sched) == PriceShutdown(old(s.pendingList), old(s.cluster.nodes), old(s.sleepingNodes),
                                                s.dispatchedJobs, old(s.sleepEndTime),
                                                MakeContext(s.policy, old(s.priceAt), old(s.idleWatt), old(s.cluster).config, time, clock))
  {
    var c: Cluster := s.cluster;
    ghost var a, sl, e := c.nodes, s.sleepingNodes, s.sleepEndTime;
    if s.pendingList == [] {
      c.nodes := c.nodes + s.sleepingNodes;
      s.sleepingNodes := c.nodes;
      c.nodes := 0;
      return [];
    }
    c.nodes := c.nodes + s.sleepingNodes;
    s.sleepingNodes := 0;
    var freeNodes := c.nodes;
    if freeNodes < s.pendingList[0].nodes || (s.policy.PriceAwareShutdown? && time < s.sleepEndTime) {
      s.sleepingNodes := freeNodes;
      c.nodes := 0;
      return [];
    }
    var ctx := BuildContext(s.policy, s.priceAt, s.idleWatt, c.config, time, clock);
    sched := PriceLoop(s, ctx, s.pendingList, a, sl, e);
  }

  /** EnforcePriceAwareShutdown leaves everything as it is with an empty
      queue, and while a requested sleep lasts unless a job has just
      completed. */
  predicate EnforceIdle(q: seq<Job>, sleepEnd: int, time: int, jobCompleted: bool)
  {
    q == [] || (!jobCompleted && time < sleepEnd)
  }

  /** EnforcePriceAwareShutdown: unless idle, every sleeping node is woken
      and the admission runs. */
  function EnforceShutdown(q: seq<Job>, awake: int, sleeping: int, d: seq<(int, int)>, sleepEnd: int,
                           ctx: PriceContext, jobCompleted: bool): EEState
  {
    if EnforceIdle(q, sleepEnd, ctx.time, jobCompleted) then EEState([], q, awake, sleeping, d, sleepEnd)
    else Admit(q, awake, sleeping, d, sleepEnd, ctx)
  }

  lemma EnforceConserves(q: seq<Job>, awake: int, sleeping: int, d: seq<(int, int)>, sleepEnd: int,
                         ctx: PriceContext, jobCompleted: bool)
    ensures EnforceIdle(q, sleepEnd, ctx.time, jobCompleted) ==>
              EnforceShutdown(q, awake, sleeping, d, sleepEnd, ctx, jobCompleted) == EEState([], q, awake, sleeping, d, sleepEnd)
    ensures !EnforceIdle(q, sleepEnd, ctx.time, jobCompleted) ==>
              Conserved(EnforceShutdown(q, awake, sleeping, d, sleepEnd, ctx, jobCompleted), awake + sleeping) &&
              EnforceShutdown(q, awake, sleeping, d, sleepEnd, ctx, jobCompleted).dispatched == d
  {
    if !EnforceIdle(q, sleepEnd, ctx.time, jobCompleted) {
      AdmitConserves(q, awake, sleeping, d, sleepEnd, ctx);
    }
  }

  lemma EnforceStartable(q: seq<Job>, awake: int, sleeping: int, d: seq<(int, int)>, sleepEnd: int,
                         ctx: PriceContext, jobCompleted: bool)
    requires AllValid(q) && awake >= 0 && sleeping >= 0 && ctx.Valid()
    ensures Sound(EnforceShutdown(q, awake, sleeping, d, sleepEnd, ctx, jobCompleted))
  {
    if !EnforceIdle(q, sleepEnd, ctx.time, jobCompleted) {
      AdmitSound(q, awake, sleeping, d, sleepEnd, ctx);
    }
  }

  /** The context the price-aware schedulers build is well formed. */
  lemma MakeContextValid(p: Policy, priceAt: int -> real, idleWatt: real, config: ClusterConfig, time: int,
                         clock: Clock)
    requires PriceAware(p) && config.Valid()
    ensures MakeContext(p, priceAt, idleWatt, config, time, clock).Valid()
  {
  }

  method TryToScheduleEnforce(s: Scheduler, time: int, clock: Clock, jobCompleted: bool) returns (sched: seq<Decision>)
    requires s.cluster != null && s.policy.EnforcePriceAwareShutdown?
    requires s.cluster.config.Valid() && AllValid(s.pendingList)
    modifies s`pendingList, s`sleepingNodes, s`sleepEndTime, s.cluster`nodes
    ensures StateOf(s, sched) == EnforceShutdown(old(s.pendingList), old(s.cluster.nodes), old(s.sleepingNodes),
                                                  s.dispatchedJobs, old(s.sleepEndTime),
                                                  MakeContext(s.policy, old(s.priceAt), old(s.idleWatt), old(s.cluster).config, time, clock),
                                                  jobCompleted)
  {
    if s.pendingList == [] || (!jobCompleted && time < s.sleepEndTime) {
      return [];
    }
    var c: Cluster := s.cluster;
    var ctx := BuildContext(s.policy, s.priceAt, s.idleWatt, c.config, time, clock);
    ghost var a, sl := c.nodes, s.sleepingNodes;
    c.nodes := c.nodes + s.sleepingNodes;
    s.sleepingNodes := 0;
    sched := PriceLoop(s, ctx, s.pendingList, a, sl, s.sleepEndTime);
  }
}
