/** The scheduler family.  Every scheduler owns a queue of pending jobs and
    answers `tryToSchedule` with the decisions to start now.  The classes of
    the original form one `Scheduler` class tagged by its `Policy`; the
    members that the FIFO family shares live here (queue updates, the FIFO
    and scan-and-skip admission loops, and the conservative backfill with
    its projection of dispatched jobs), and the simulator dispatches on the
    tag. */
module Schedulers {
  import opened Common
  import opened Text
  import opened Configuration
  import opened Jobs
  import opened Sorting

  /** The scheduler classes.  The price-aware ones carry the look-ahead
      horizon in hours read from their argument. */
  datatype Policy =
    | FIFO
    | FIFOBackfillDelay
    | FIFOBackfill
    | BackfillTest
    | BiggestFirstBackfill
    | LongestFirstBackfill
    | FIFOBackfillShutdown
    | FIFOBackfillShutdownDelay
    | FIFOPriceAwareShutdown(hoursAhead: int)
    | PriceAwareShutdown(hoursAhead: int)
    | EnforcePriceAwareShutdown(hoursAhead: int)

  /** One entry of a schedule: start `job` for `runtime` seconds at a
      P-state, or the marker that asks the simulator to call the scheduler
      again after `delay` seconds. */
  datatype Decision =
    | Dispatch(job: Job, runtime: int, pstate: int)
    | SleepScheduling(delay: int)

  /** Every scheduler starts a job with its shortest run length at P-state 4. */
  function Pick(j: Job): (d: Decision)
    ensures d.Dispatch? && d.job == j && d.runtime == j.durationMin && d.pstate == 4
  {
    Dispatch(j, j.durationMin, 4)
  }

  function Picks(js: seq<Job>): (ds: seq<Decision>)
    ensures |ds| == |js| && forall i | 0 <= i < |js| :: ds[i] == Pick(js[i])
  {
    if js == [] then [] else Picks(js[..|js| - 1]) + [Pick(js[|js| - 1])]
  }

  /** Nodes the real (non-marker) decisions occupy. */
  function DecisionNodes(ds: seq<Decision>): int
  {
    if ds == [] then 0
    else DecisionNodes(ds[..|ds| - 1]) + (if ds[|ds| - 1].Dispatch? then ds[|ds| - 1].job.nodes else 0)
  }

  lemma {:induction false} PicksNodes(js: seq<Job>)
    ensures DecisionNodes(Picks(js)) == SumNodes(js)
  {
    if js != [] {
      var n := |js| - 1;
      PicksNodes(js[..n]);
      assert Picks(js)[..n] == Picks(js[..n]);
    }
  }

  lemma DecisionNodesSnoc(ds: seq<Decision>, d: Decision)
    ensures DecisionNodes(ds + [d]) == DecisionNodes(ds) + (if d.Dispatch? then d.job.nodes else 0)
  {
    assert (ds + [d])[..|ds|] == ds;
  }

  /** How many of the first pending jobs the scan may skip. */
  function BackfillLength(p: Policy): int
  {
    match p
    case BiggestFirstBackfill => 100
    case LongestFirstBackfill => 100
    case FIFOPriceAwareShutdown(_) => 100
    case PriceAwareShutdown(_) => 100
    case EnforcePriceAwareShutdown(_) => 100
    case _ => 1000
  }

  /** Seconds the simulator batches new submissions before handing them over. */
  function SchedulingDelay(): (d: int)
    ensures d > 0
  {
    1
  }

  // ---------------------------------------------------------------------
  // The scheduler factory

  datatype FactoryError =
    | NoValidModel    // unknown name, and "list" after printing the names
    | InvalidArgument // `int(argument)` rejects the argument

  /** The argument of the price-aware schedulers is their horizon in hours. */
  function Horizon(name: string, argument: string): (r: Result<Policy, FactoryError>)
    requires name in PriceAwareNames()
    ensures r.Ok? <==> ParseInt(argument).Some?
    ensures r.Ok? ==> PriceAware(r.value) && NameOf(r.value) == name && Some(r.value.hoursAhead) == ParseInt(argument)
    ensures r.Err? ==> r.error == InvalidArgument
  {
    match ParseInt(argument)
    case None => Err(InvalidArgument)
    case Some(h) =>
      if name == "FIFOPriceAwareShutdown" then Ok(FIFOPriceAwareShutdown(h))
      else if name == "PriceAwareShutdown" then Ok(PriceAwareShutdown(h))
      else Ok(EnforcePriceAwareShutdown(h))
  }

  /** The name under which the factory builds each class. */
  function NameOf(p: Policy): string
  {
    match p
    case FIFO => "FIFO"
    case FIFOBackfillDelay => "FIFOBackfillDelay"
    case FIFOBackfill => "FIFOBackfill"
    case BackfillTest => "test"
    case BiggestFirstBackfill => "BiggestFirstBackfill"
    case LongestFirstBackfill => "LongestFirstBackfill"
    case FIFOBackfillShutdown => "FIFOBackfillShutdown"
    case FIFOBackfillShutdownDelay => "FIFOBackfillShutdownDelay"
    case FIFOPriceAwareShutdown(_) => "FIFOPriceAwareShutdown"
    case PriceAwareShutdown(_) => "PriceAwareShutdown"
    case EnforcePriceAwareShutdown(_) => "EnforcePriceAwareShutdown"
  }

  predicate PriceAware(p: Policy)
  {
    p.FIFOPriceAwareShutdown? || p.PriceAwareShutdown? || p.EnforcePriceAwareShutdown?
  }

  function PriceAwareNames(): set<string>
  {
    {"FIFOPriceAwareShutdown", "PriceAwareShutdown", "EnforcePriceAwareShutdown"}
  }

  /** The factory: a known name builds the class of that name; the
      price-aware classes convert their argument with `int`, and any other
      name (including "list") fails. */
  function CreateScheduler(name: string, argument: string): (r: Result<Policy, FactoryError>)
    ensures r.Ok? ==> NameOf(r.value) == name
    ensures r.Ok? ==> (PriceAware(r.value) <==> name in PriceAwareNames())
    ensures r.Ok? && PriceAware(r.value) ==> Some(r.value.hoursAhead) == ParseInt(argument)
    ensures r.Err? ==> (r.error == InvalidArgument <==> name in PriceAwareNames())
    ensures name in PriceAwareNames() ==> (r.Ok? <==> ParseInt(argument).Some?)
  {
    if name == "test" then Ok(BackfillTest)
    else if name == "FIFO" then Ok(FIFO)
    else if name == "FIFOBackfillDelay" then Ok(FIFOBackfillDelay)
    else if name == "FIFOBackfill" then Ok(FIFOBackfill)
    else if name in PriceAwareNames() then Horizon(name, argument)
    else if name == "BiggestFirstBackfill" then Ok(BiggestFirstBackfill)
    else if name == "LongestFirstBackfill" then Ok(LongestFirstBackfill)
    else if name == "FIFOBackfillShutdown" then Ok(FIFOBackfillShutdown)
    else if name == "FIFOBackfillShutdownDelay" then Ok(FIFOBackfillShutdownDelay)
    else Err(NoValidModel)
  }

  /** Every class is built from its own name, the price-aware ones from the
      decimal spelling of a non-negative horizon. */
  lemma CreateSchedulerRoundTrip(p: Policy)
    requires PriceAware(p) ==> p.hoursAhead >= 0
    ensures CreateScheduler(NameOf(p), if PriceAware(p) then NatToDigits(p.hoursAhead) else "") == Ok(p)
  {
    if PriceAware(p) {
      var name, digits := NameOf(p), NatToDigits(p.hoursAhead);
      assert name in PriceAwareNames();
      assert name != "test" && name != "FIFO" && name != "FIFOBackfillDelay" && name != "FIFOBackfill";
      assert CreateScheduler(name, digits) == Horizon(name, digits);
      HorizonRoundTrip(p);
    } else {
      assert NameOf(p) !in PriceAwareNames();
    }
  }

  /** A price-aware class is built back from its name and its horizon. */
  lemma HorizonRoundTrip(p: Policy)
    requires PriceAware(p) && p.hoursAhead >= 0
    ensures Horizon(NameOf(p), NatToDigits(p.hoursAhead)) == Ok(p)
  {
    ParseDigits(p.hoursAhead);
    assert ParseInt(NatToDigits(p.hoursAhead)) == Some(p.hoursAhead);
  }

  /** "list" only prints the names and then fails like an unknown name. */
  lemma CreateSchedulerList(argument: string)
    ensures CreateScheduler("list", argument) == Err(NoValidModel)
  {
    assert "list" !in PriceAwareNames();
  }

  // ---------------------------------------------------------------------
  // The FIFO admission: the longest prefix that fits

  /** Number of leading jobs that fit one after the other into `free` nodes. */
  function FitCount(q: seq<Job>, free: int): (k: nat)
    ensures k <= |q|
  {
    if q == [] || free < q[0].nodes then 0 else 1 + FitCount(q[1..], free - q[0].nodes)
  }

  /** The admitted prefix fits, and one more job would not. */
  lemma {:induction false} FitCountLongest(q: seq<Job>, free: int)
    ensures var k := FitCount(q, free);
            (k > 0 ==> SumNodes(q[..k]) <= free) && (k < |q| ==> SumNodes(q[..k + 1]) > free)
  {
    var k := FitCount(q, free);
    if q != [] {
      if free < q[0].nodes {
        assert q[..1] == [q[0]] + [];
        SumNodesCons(q[0], []);
      } else {
        FitCountLongest(q[1..], free - q[0].nodes);
        var t := q[1..];
        assert q[..k] == [q[0]] + t[..k - 1];
        SumNodesCons(q[0], t[..k - 1]);
        if k < |q| {
          assert q[..k + 1] == [q[0]] + t[..k];
          SumNodesCons(q[0], t[..k]);
        }
      }
    }
  }

  // ---------------------------------------------------------------------
  // The scan with skipping (backfill)

  /** How a scan ended. */
  datatype ScanExit = Exhausted | NoFreeNodes | LimitReached

  /** The jobs a scan starts, the jobs it leaves queued (in order), the
      free nodes it leaves and how it ended. */
  datatype ScanResult = ScanResult(picked: seq<Job>, rest: seq<Job>, free: int, exit: ScanExit)

  /** The conservative test, when present, holds back a job that would delay
      the first skipped job; it needs the current time and the sorted
      projection of dispatched jobs. */
  datatype Guard = NoGuard | DelayGuard(time: int, dispatched: seq<(int, int)>)

  /** The test of the conservative backfill: would starting `job` now, with
      `free` nodes available, delay the pending head job that needs
      `headNodes` nodes? */
  function DelaysPrior(time: int, job: Job, free: int, headNodes: int, d: seq<(int, int)>): bool
  {
    if free - job.nodes >= headNodes then false
    else
      var k := CoverIndex(d, free, headNodes);
      var freeAfter := free + Released(d[..if k < |d| then k + 1 else |d|]);
      var dispatchTime := if k < |d| then d[k].0 else 0;
      if freeAfter - job.nodes >= headNodes then false else dispatchTime > time + job.durationMin
  }

  /** Nodes released by the projected entries. */
  function Released(d: seq<(int, int)>): int
  {
    if d == [] then 0 else Released(d[..|d| - 1]) + d[|d| - 1].1
  }

  lemma ReleasedSnoc(d: seq<(int, int)>, e: (int, int))
    ensures Released(d + [e]) == Released(d) + e.1
  {
    assert (d + [e])[..|d|] == d;
  }

  /** Index of the first projected entry whose release brings the free nodes
      up to `need`; `|d|` if none does. */
  function CoverIndex(d: seq<(int, int)>, free: int, need: int): (k: nat)
    ensures k <= |d|
  {
    if d == [] then 0
    else if free + d[0].1 >= need then 0
    else 1 + CoverIndex(d[1..], free + d[0].1, need)
  }

  /** The cover index is the first entry whose cumulative release suffices. */
  lemma {:induction false} CoverIndexFirst(d: seq<(int, int)>, free: int, need: int)
    ensures var k := CoverIndex(d, free, need);
            (forall i | 0 < i <= k :: free + Released(d[..i]) < need) &&
            (k < |d| ==> free + Released(d[..k + 1]) >= need)
  {
    var k := CoverIndex(d, free, need);
    if d != [] {
      ReleasedCons(d);
      if free + d[0].1 < need {
        var t := d[1..];
        CoverIndexFirst(t, free + d[0].1, need);
        forall i | 0 < i <= k
          ensures free + Released(d[..i]) < need
        {
          ReleasedPrefix(d, i);
          if i == 1 {
            assert t[..0] == [];
          }
        }
        if k < |d| {
          ReleasedPrefix(d, k + 1);
        }
      }
    }
  }

  lemma ReleasedCons(d: seq<(int, int)>)
    requires d != []
    ensures Released(d[..1]) == d[0].1
  {
    assert d[..1] == [] + [d[0]];
    ReleasedSnoc([], d[0]);
  }

  /** The release of a prefix of length at least one splits after the first entry. */
  lemma {:induction false} ReleasedPrefix(d: seq<(int, int)>, n: nat)
    requires 1 <= n <= |d|
    ensures Released(d[..n]) == d[0].1 + Released(d[1..][..n - 1])
    decreases n
  {
    if n == 1 {
      ReleasedCons(d);
      assert d[1..][..0] == [];
    } else {
      ReleasedPrefix(d, n - 1);
      assert d[..n] == d[..n - 1] + [d[n - 1]];
      ReleasedSnoc(d[..n - 1], d[n - 1]);
      assert d[1..][..n - 1] == d[1..][..n - 2] + [d[n - 1]];
      ReleasedSnoc(d[1..][..n - 2], d[n - 1]);
    }
  }

  /** A job that fits beside the head job is never held back. */
  lemma DelaysPriorFits(time: int, job: Job, free: int, headNodes: int, d: seq<(int, int)>)
    requires free - job.nodes >= headNodes
    ensures !DelaysPrior(time, job, free, headNodes, d)
  {
  }

  /** A job that would end before the head job can start is never held back;
      nor is any job when no projected release makes room for the head job
      (then the head job's start counts as time 0). */
  lemma DelaysPriorOnlyIfLater(time: int, job: Job, free: int, headNodes: int, d: seq<(int, int)>)
    requires time + job.durationMin >= 0
    ensures DelaysPrior(time, job, free, headNodes, d) ==>
              var k := CoverIndex(d, free, headNodes);
              k < |d| && d[k].0 > time + job.durationMin
  {
  }

  /** The scan passes over `job` when it does not fit, or when it is not the
      first job scanned and the guard holds it back for the first skipped
      job `head`. */
  predicate Skips(job: Job, free: int, head: Option<Job>, guard: Guard)
  {
    free < job.nodes ||
    (head.Some? && guard.DelayGuard? && DelaysPrior(guard.time, job, free, head.value.nodes, guard.dispatched))
  }

  /** The bounded scan: walk the queue, start every job that fits (and that
      the guard does not hold back), skip the others; stop without free
      nodes (when `stopAtZero`) or once more than `limit` jobs were skipped.
      `skipped` counts the jobs skipped so far and `head` is the first of
      them. */
  function Scan(q: seq<Job>, free: int, skipped: nat, head: Option<Job>, limit: int, stopAtZero: bool,
                guard: Guard): ScanResult
    decreases |q|
  {
    if q == [] then ScanResult([], [], free, Exhausted)
    else if stopAtZero && free == 0 then ScanResult([], q, free, NoFreeNodes)
    else if Skips(q[0], free, head, guard) then
      if skipped + 1 > limit then ScanResult([], q, free, LimitReached)
      else
        var r := Scan(q[1..], free, skipped + 1, if head.None? then Some(q[0]) else head, limit, stopAtZero, guard);
        r.(rest := [q[0]] + r.rest)
    else
      var r := Scan(q[1..], free - q[0].nodes, skipped, head, limit, stopAtZero, guard);
      r.(picked := [q[0]] + r.picked)
  }

  /** `q` is an interleaving of `a` and `b`: both keep their relative order. */
  predicate Interleaving(a: seq<Job>, b: seq<Job>, q: seq<Job>)
    decreases |q|
  {
    if q == [] then a == [] && b == []
    else (a != [] && a[0] == q[0] && Interleaving(a[1..], b, q[1..])) ||
         (b != [] && b[0] == q[0] && Interleaving(a, b[1..], q[1..]))
  }

  lemma {:induction false} InterleavingMultiset(a: seq<Job>, b: seq<Job>, q: seq<Job>)
    requires Interleaving(a, b, q)
    ensures multiset(a) + multiset(b) == multiset(q)
    decreases |q|
  {
    if q != [] {
      if a != [] && a[0] == q[0] && Interleaving(a[1..], b, q[1..]) {
        InterleavingMultiset(a[1..], b, q[1..]);
        assert a == [a[0]] + a[1..];
      } else {
        InterleavingMultiset(a, b[1..], q[1..]);
        assert b == [b[0]] + b[1..];
      }
      assert q == [q[0]] + q[1..];
    }
  }

  lemma AllValidTail(q: seq<Job>)
    requires q != [] && AllValid(q)
    ensures ValidJob(q[0]) && AllValid(q[1..])
  {
    forall i | 0 <= i < |q[1..]| ensures ValidJob(q[1..][i]) { assert q[1..][i] == q[i + 1]; }
  }

  /** What a scan does with the queue: the started and the queued jobs
      split it in order, and the started ones used exactly the nodes that
      are no longer free. */
  lemma ScanAccounting(q: seq<Job>, free: int, skipped: nat, head: Option<Job>, limit: int,
                       stopAtZero: bool, guard: Guard)
    requires AllValid(q)
    ensures var r := Scan(q, free, skipped, head, limit, stopAtZero, guard);
            Interleaving(r.picked, r.rest, q) && r.free == free - SumNodes(r.picked) && r.free <= free &&
            (free >= 0 ==> r.free >= 0)
  {
    ScanSplits(q, free, skipped, head, limit, stopAtZero, guard);
    ScanNodes(q, free, skipped, head, limit, stopAtZero, guard);
  }

  lemma {:induction false} ScanSplits(q: seq<Job>, free: int, skipped: nat, head: Option<Job>, limit: int,
                                      stopAtZero: bool, guard: Guard)
    ensures var r := Scan(q, free, skipped, head, limit, stopAtZero, guard);
            Interleaving(r.picked, r.rest, q)
    decreases |q|
  {
    if q == [] {
    } else if stopAtZero && free == 0 {
      InterleavingRest(q);
    } else if Skips(q[0], free, head, guard) {
      if skipped + 1 > limit {
        InterleavingRest(q);
      } else {
        var h := if head.None? then Some(q[0]) else head;
        ScanSplits(q[1..], free, skipped + 1, h, limit, stopAtZero, guard);
        var s := Scan(q[1..], free, skipped + 1, h, limit, stopAtZero, guard);
        assert ([q[0]] + s.rest)[1..] == s.rest;
      }
    } else {
      ScanSplits(q[1..], free - q[0].nodes, skipped, head, limit, stopAtZero, guard);
      var s := Scan(q[1..], free - q[0].nodes, skipped, head, limit, stopAtZero, guard);
      assert ([q[0]] + s.picked)[1..] == s.picked;
    }
  }

  lemma {:induction false} ScanNodes(q: seq<Job>, free: int, skipped: nat, head: Option<Job>, limit: int,
                                     stopAtZero: bool, guard: Guard)
    requires AllValid(q)
    ensures var r := Scan(q, free, skipped, head, limit, stopAtZero, guard);
            r.free == free - SumNodes(r.picked) && r.free <= free && (free >= 0 ==> r.free >= 0)
    decreases |q|
  {
    if q != [] && !(stopAtZero && free == 0) {
      AllValidTail(q);
      if Skips(q[0], free, head, guard) {
        if skipped + 1 <= limit {
          ScanNodes(q[1..], free, skipped + 1, if head.None? then Some(q[0]) else head, limit, stopAtZero, guard);
        }
      } else {
        ScanNodes(q[1..], free - q[0].nodes, skipped, head, limit, stopAtZero, guard);
        SumNodesCons(q[0], Scan(q[1..], free - q[0].nodes, skipped, head, limit, stopAtZero, guard).picked);
      }
    }
  }

  /** Why a scan ends: out of free nodes, after skipping more than the
      limit allows, or at the end of the queue having skipped no more than
      that; a plain scan then leaves only jobs too big for the free nodes. */
  lemma {:induction false} ScanExits(q: seq<Job>, free: int, skipped: nat, head: Option<Job>, limit: int,
                                     stopAtZero: bool, guard: Guard)
    requires AllValid(q) && skipped <= limit
    ensures var r := Scan(q, free, skipped, head, limit, stopAtZero, guard);
            (r.exit == NoFreeNodes ==> r.free == 0 && stopAtZero) &&
            (r.exit == LimitReached ==> |r.rest| >= limit + 1 - skipped) &&
            (r.exit == Exhausted ==> skipped + |r.rest| <= limit) &&
            (r.exit == Exhausted && guard.NoGuard? ==> forall j | j in r.rest :: r.free < j.nodes)
    decreases |q|
  {
    if q != [] && !(stopAtZero && free == 0) {
      AllValidTail(q);
      if Skips(q[0], free, head, guard) {
        if skipped + 1 <= limit {
          var h := if head.None? then Some(q[0]) else head;
          ScanExits(q[1..], free, skipped + 1, h, limit, stopAtZero, guard);
          ScanAccounting(q[1..], free, skipped + 1, h, limit, stopAtZero, guard);
        }
      } else {
        ScanExits(q[1..], free - q[0].nodes, skipped, head, limit, stopAtZero, guard);
      }
    }
  }

  lemma {:induction false} InterleavingRest(q: seq<Job>)
    ensures Interleaving([], q, q)
    decreases |q|
  {
    if q != [] {
      InterleavingRest(q[1..]);
    }
  }

  /** What the scan has done so far, put together with what it still does
      on the rest of the queue. */
  function Resume(picked: seq<Job>, skipped: seq<Job>, r: ScanResult): ScanResult
  {
    r.(picked := picked + r.picked, rest := skipped + r.rest)
  }

  /** The first skipped job while the scan stands at position `i` of the
      remaining queue `pl`: the jobs before `i` are exactly the skipped ones. */
  function HeadAt(pl: seq<Job>, i: nat): Option<Job>
    requires i <= |pl|
  {
    if i == 0 then None else Some(pl[0])
  }

  /** The whole scan, seen from position `i` of the remaining queue `pl`
      with `picked` already started and `free` nodes left. */
  function ScanAt(picked: seq<Job>, pl: seq<Job>, i: nat, free: int, limit: int, stopAtZero: bool, guard: Guard): ScanResult
    requires i <= |pl|
  {
    Resume(picked, pl[..i], Scan(pl[i..], free, i, HeadAt(pl, i), limit, stopAtZero, guard))
  }

  /** Skipping the job at `i` moves the scan one position on. */
  lemma ResumeSkip(picked: seq<Job>, pl: seq<Job>, i: nat, free: int, limit: int, stopAtZero: bool, guard: Guard)
    requires i < |pl| && i + 1 <= limit && !(stopAtZero && free == 0) && Skips(pl[i], free, HeadAt(pl, i), guard)
    ensures ScanAt(picked, pl, i, free, limit, stopAtZero, guard) == ScanAt(picked, pl, i + 1, free, limit, stopAtZero, guard)
  {
    var q := pl[i..];
    assert q[0] == pl[i] && q[1..] == pl[i + 1..];
    assert pl[..i + 1] == pl[..i] + [pl[i]];
  }

  /** Starting the job at `i` removes it from the queue; the scan stays at `i`. */
  lemma ResumePick(picked: seq<Job>, pl: seq<Job>, i: nat, free: int, limit: int, stopAtZero: bool, guard: Guard)
    requires i < |pl| && !(stopAtZero && free == 0) && !Skips(pl[i], free, HeadAt(pl, i), guard)
    ensures ScanAt(picked, pl, i, free, limit, stopAtZero, guard)
         == ScanAt(picked + [pl[i]], pl[..i] + pl[i + 1..], i, free - pl[i].nodes, limit, stopAtZero, guard)
  {
    var q := pl[i..];
    var pl' := pl[..i] + pl[i + 1..];
    assert q[0] == pl[i] && q[1..] == pl[i + 1..];
    assert pl'[..i] == pl[..i] && pl'[i..] == pl[i + 1..];
    assert i > 0 ==> pl'[0] == pl[0];
  }

  /** The scan stops with the queue as it stands when it leaves it. */
  lemma ResumeStop(picked: seq<Job>, pl: seq<Job>, i: nat, free: int, limit: int, stopAtZero: bool, guard: Guard)
    requires i < |pl|
    requires (stopAtZero && free == 0) || (i + 1 > limit && Skips(pl[i], free, HeadAt(pl, i), guard))
    ensures ScanAt(picked, pl, i, free, limit, stopAtZero, guard)
         == ScanResult(picked, pl, free, if stopAtZero && free == 0 then NoFreeNodes else LimitReached)
  {
    var q := pl[i..];
    assert q[0] == pl[i];
    assert pl[..i] + pl[i..] == pl;
  }

  /** At the end of the queue the scan is complete. */
  lemma ResumeDone(picked: seq<Job>, pl: seq<Job>, free: int, limit: int, stopAtZero: bool, guard: Guard)
    ensures ScanAt(picked, pl, |pl|, free, limit, stopAtZero, guard) == ScanResult(picked, pl, free, Exhausted)
  {
    assert pl[..|pl|] == pl && pl[|pl|..] == [];
  }

  // ---------------------------------------------------------------------
  // Projection of dispatched jobs

  /** Python's `sort()` of the `[end, nodes]` entries. */
  function SortProjection(d: seq<(int, int)>): seq<(int, int)>
  {
    SortBy(d, (e: (int, int)) => e)
  }

  /** Leading entries that the purge pops: it drops entries while the first
      one ends strictly after `time`. */
  function PurgeCount(d: seq<(int, int)>, time: int): (k: nat)
    ensures k <= |d|
    ensures forall i | 0 <= i < k :: d[i].0 > time
    ensures k < |d| ==> d[k].0 <= time
  {
    if d == [] || d[0].0 <= time then 0 else 1 + PurgeCount(d[1..], time)
  }

  /** The projection entries of the real decisions: end time and nodes. */
  function Releases(time: int, ds: seq<Decision>): seq<(int, int)>
  {
    if ds == [] then []
    else Releases(time, ds[..|ds| - 1]) +
         (if ds[|ds| - 1].Dispatch? then [(time + ds[|ds| - 1].runtime, ds[|ds| - 1].job.nodes)] else [])
  }

  /** Every started job is projected to release its nodes when it ends. */
  lemma {:induction false} ReleasesOfPicks(time: int, js: seq<Job>)
    ensures |Releases(time, Picks(js))| == |js|
    ensures forall i | 0 <= i < |js| :: Releases(time, Picks(js))[i] == (time + js[i].durationMin, js[i].nodes)
  {
    if js != [] {
      var n := |js| - 1;
      ReleasesOfPicks(time, js[..n]);
      assert Picks(js)[..n] == Picks(js[..n]);
    }
  }

  // ---------------------------------------------------------------------
  // The scheduler object

  class Scheduler {
    const policy: Policy
    var cluster: Cluster?
    /** The energy model's hourly price lookup. */
    var priceAt: int -> real
    var pendingList: seq<Job>
    /** `[end, nodes]` of the jobs this scheduler dispatched. */
    var dispatchedJobs: seq<(int, int)>
    var sleepingNodes: int
    var sleepEndTime: int
    /** Idle power per node in watts, the infrastructure power spread. */
    var idleWatt: real

    constructor (policy: Policy)
      ensures this.policy == policy && cluster == null && pendingList == [] && dispatchedJobs == []
      ensures sleepingNodes == 0 && sleepEndTime == 0
    {
      this.policy := policy;
      cluster := null;
      priceAt := (t: int) => 0.0;
      pendingList := [];
      dispatchedJobs := [];
      sleepingNodes := 0;
      sleepEndTime := 0;
      idleWatt := 0.0;
    }

    /** Stores the cluster and the price lookup; the price-aware schedulers
        with idle costs also spread the infrastructure power over the nodes. */
    method SetCluster(c: Cluster, prices: int -> real)
      requires (policy.FIFOPriceAwareShutdown? || policy.PriceAwareShutdown?) ==> c.nodes != 0
      modifies this`cluster, this`priceAt, this`idleWatt
      ensures cluster == c && priceAt == prices
      ensures (policy.FIFOPriceAwareShutdown? || policy.PriceAwareShutdown?) ==>
                idleWatt == c.config.infrastructurePowerConsumption / c.nodes as real
      ensures !(policy.FIFOPriceAwareShutdown? || policy.PriceAwareShutdown?) ==> idleWatt == old(idleWatt)
    {
      cluster := c;
      priceAt := prices;
      if policy.FIFOPriceAwareShutdown? || policy.PriceAwareShutdown? {
        idleWatt := c.config.infrastructurePowerConsumption / c.nodes as real;
      }
    }

    /** New submissions join the end of the queue in their order. */
    method NewPendingJobs(jobs: seq<Job>)
      modifies this`pendingList
      ensures pendingList == old(pendingList) + jobs
    {
      pendingList := pendingList + jobs;
    }

    /** A job stopped by a failure is queued again at the front. */
    method JobAbortedWithErrors(job: Job)
      modifies this`pendingList
      ensures pendingList == [job] + old(pendingList)
    {
      pendingList := [job] + pendingList;
    }

    /** FIFO: start jobs from the head of the queue while they fit. */
    method TryToScheduleFIFO() returns (sched: seq<Decision>)
      requires cluster != null
      modifies this`pendingList
      ensures var k := FitCount(old(pendingList), cluster.nodes);
              sched == Picks(old(pendingList)[..k]) && pendingList == old(pendingList)[k..]
    {
      ghost var q := pendingList;
      if pendingList == [] {
        return [];
      }
      sched := [];
      var freeNodes := cluster.nodes;
      ghost var k := 0;
      while pendingList != []
        invariant 0 <= k <= |q| && pendingList == q[k..] && sched == Picks(q[..k])
        invariant FitCount(q, cluster.nodes) == k + FitCount(pendingList, freeNodes)
        decreases |pendingList|
      {
        var job := pendingList[0];
        if freeNodes < job.nodes {
          return;
        }
        freeNodes := freeNodes - job.nodes;
        pendingList := pendingList[1..];
        assert q[..k + 1] == q[..k] + [job];
        sched := sched + [Pick(job)];
        k := k + 1;
      }
    }

    /** The scan-and-skip loop shared by the backfill schedulers.  With
        `conservative` set, a fitting job that is not the first one scanned
        is still skipped when it would delay the queue's head job. */
    method ScanPending(time: int, limit: int, stopAtZero: bool, conservative: bool)
      returns (picked: seq<Job>, free: int, exit: ScanExit)
      requires cluster != null
      modifies this`pendingList
      ensures var r := Scan(old(pendingList), cluster.nodes, 0, None, limit, stopAtZero,
                            if conservative then DelayGuard(time, dispatchedJobs) else NoGuard);
              picked == r.picked && pendingList == r.rest && free == r.free && exit == r.exit
    {
      ghost var guard := if conservative then DelayGuard(time, dispatchedJobs) else NoGuard;
      ghost var whole := Scan(pendingList, cluster.nodes, 0, None, limit, stopAtZero, guard);
      assert pendingList[..0] == [] && pendingList[0..] == pendingList;
      picked := [];
      free := cluster.nodes;
      var i := 0;
      while i < |pendingList|
        invariant 0 <= i <= |pendingList|
        invariant whole == ScanAt(picked, pendingList, i, free, limit, stopAtZero, guard)
        decreases |pendingList| - i
      {
        var job := pendingList[i];
        if stopAtZero && free == 0 {
          ResumeStop(picked, pendingList, i, free, limit, stopAtZero, guard);
          return picked, free, NoFreeNodes;
        }
        var skip := SkipsAt(time, i, free, conservative);
        if skip {
          if i + 1 > limit {
            ResumeStop(picked, pendingList, i, free, limit, stopAtZero, guard);
            return picked, free, LimitReached;
          }
          ResumeSkip(picked, pendingList, i, free, limit, stopAtZero, guard);
          i := i + 1;
          continue;
        }
        ResumePick(picked, pendingList, i, free, limit, stopAtZero, guard);
        free := free - job.nodes;
        pendingList := pendingList[..i] + pendingList[i + 1..];
        picked := picked + [job];
      }
      ResumeDone(picked, pendingList, free, limit, stopAtZero, guard);
      return picked, free, Exhausted;
    }

    /** Whether the scan at position `i` passes over the job there: it does
        not fit, or (conservatively, and not first) it would delay the head. */
    method SkipsAt(time: int, i: int, free: int, conservative: bool) returns (skip: bool)
      requires 0 <= i < |pendingList|
      ensures skip == Skips(pendingList[i], free, HeadAt(pendingList, i),
                            if conservative then DelayGuard(time, dispatchedJobs) else NoGuard)
    {
      var job := pendingList[i];
      if job.nodes > free {
        return true;
      }
      skip := false;
      if i != 0 && conservative {
        skip := DelaysExecutionOfPriorJob(time, job, free);
      }
    }

    /** The conservative test against the current queue head and projection. */
    method DelaysExecutionOfPriorJob(time: int, job: Job, freeNodes: int) returns (b: bool)
      ensures pendingList == [] ==> !b
      ensures pendingList != [] ==> b == DelaysPrior(time, job, freeNodes, pendingList[0].nodes, dispatchedJobs)
    {
      if pendingList == [] {
        return false;
      }
      var nodesHighest := pendingList[0].nodes;
      var nodeJobs := job.nodes;
      if freeNodes - nodeJobs >= nodesHighest {
        return false;
      }
      var free := freeNodes;
      var dispatchTime := 0;
      var i := 0;
      var d := dispatchedJobs;
      ghost var k := CoverIndex(d, freeNodes, nodesHighest);
      CoverIndexFirst(d, freeNodes, nodesHighest);
      while i < |d|
        invariant 0 <= i <= k && free == freeNodes + Released(d[..i]) && dispatchTime == 0
      {
        assert d[..i + 1] == d[..i] + [d[i]];
        ReleasedSnoc(d[..i], d[i]);
        free := free + d[i].1;
        if free >= nodesHighest {
          dispatchTime := d[i].0;
          break;
        }
        i := i + 1;
      }
      if free - nodeJobs >= nodesHighest {
        return false;
      }
      return dispatchTime > time + job.durationMin;
    }

    /** Drops the leading projection entries that end after `time`. */
    method PurgeExpiredJobs(time: int)
      modifies this`dispatchedJobs
      ensures dispatchedJobs == old(dispatchedJobs)[PurgeCount(old(dispatchedJobs), time)..]
    {
      while dispatchedJobs != []
        invariant old(dispatchedJobs)[PurgeCount(old(dispatchedJobs), time)..]
               == dispatchedJobs[PurgeCount(dispatchedJobs, time)..]
        decreases |dispatchedJobs|
      {
        if dispatchedJobs[0].0 > time {
          dispatchedJobs := dispatchedJobs[1..];
        } else {
          return;
        }
      }
    }

    /** Projects every started job to release its nodes at its end. */
    method DispatchJobs(time: int, sched: seq<Decision>)
      modifies this`dispatchedJobs
      ensures dispatchedJobs == old(dispatchedJobs) + Releases(time, sched)
    {
      for i := 0 to |sched|
        invariant dispatchedJobs == old(dispatchedJobs) + Releases(time, sched[..i])
      {
        assert sched[..i + 1] == sched[..i] + [sched[i]];
        if sched[i].Dispatch? {
          dispatchedJobs := dispatchedJobs + [(time + sched[i].runtime, sched[i].job.nodes)];
        }
      }
      assert sched[..|sched|] == sched;
    }

    /** FIFOBackfillDelay (and the size- and length-ordered schedulers):
        the plain bounded scan. */
    method TryToScheduleScan(time: int) returns (sched: seq<Decision>)
      requires cluster != null
      modifies this`pendingList
      ensures var r := Scan(old(pendingList), cluster.nodes, 0, None, BackfillLength(policy), true, NoGuard);
              sched == Picks(r.picked) && pendingList == r.rest
    {
      if pendingList == [] {
        return [];
      }
      var picked, free, exit := ScanPending(time, BackfillLength(policy), true, false);
      sched := Picks(picked);
    }

    /** FIFOBackfill: the conservative scan over the sorted, purged
        projection; the started jobs are projected, except when the scan
        ran out of free nodes. */
    method TryToScheduleBackfill(time: int) returns (sched: seq<Decision>)
      requires cluster != null
      modifies this`pendingList, this`dispatchedJobs
      ensures old(pendingList) == [] ==> sched == [] && pendingList == [] && dispatchedJobs == old(dispatchedJobs)
      ensures old(pendingList) != [] ==>
                var d := SortProjection(old(dispatchedJobs));
                var d' := d[PurgeCount(d, time)..];
                var r := Scan(old(pendingList), cluster.nodes, 0, None, 1000, true, DelayGuard(time, d'));
                sched == Picks(r.picked) && pendingList == r.rest &&
                dispatchedJobs == d' + (if r.exit == NoFreeNodes then [] else Releases(time, sched))
    {
      if pendingList == [] {
        return [];
      }
      dispatchedJobs := SortProjection(dispatchedJobs);
      PurgeExpiredJobs(time);
      var picked, free, exit := ScanPending(time, 1000, true, true);
      sched := Picks(picked);
      if exit != NoFreeNodes {
        DispatchJobs(time, sched);
      }
    }
  }

  // ---------------------------------------------------------------------
  // What the simulator relies on

  /** Decisions the simulator can carry out: a started job is a valid job
      run for a non-negative time, and a sleep request asks for a positive
      delay. */
  predicate CanStart(d: Decision)
  {
    (d.Dispatch? ==> ValidJob(d.job) && d.runtime >= 0) && (d.SleepScheduling? ==> d.delay > 0)
  }

  predicate Startable(ds: seq<Decision>)
  {
    forall i | 0 <= i < |ds| :: CanStart(ds[i])
  }

  lemma PicksStartable(js: seq<Job>)
    requires AllValid(js)
    ensures Startable(Picks(js))
  {
  }

  lemma StartableConcat(a: seq<Decision>, b: seq<Decision>)
    requires Startable(a) && Startable(b)
    ensures Startable(a + b)
  {
    forall i | 0 <= i < |a + b|
      ensures CanStart((a + b)[i])
    {
      if i >= |a| {
        assert (a + b)[i] == b[i - |a|];
      }
    }
  }

  /** Startable decisions never give nodes back. */
  lemma {:induction false} StartableNodes(ds: seq<Decision>)
    requires Startable(ds)
    ensures DecisionNodes(ds) >= 0
  {
    if ds != [] {
      var n := |ds| - 1;
      assert Startable(ds[..n]) by {
        forall i | 0 <= i < n
          ensures ds[..n][i] == ds[i]
        {
        }
      }
      StartableNodes(ds[..n]);
    }
  }

  /** Jobs taken from a queue of valid jobs are valid. */
  lemma AllValidSub(a: seq<Job>, q: seq<Job>)
    requires AllValid(q) && multiset(a) <= multiset(q)
    ensures AllValid(a)
  {
    forall i | 0 <= i < |a|
      ensures ValidJob(a[i])
    {
      assert a[i] in multiset(a);
      assert a[i] in multiset(q);
      var k :| 0 <= k < |q| && q[k] == a[i];
    }
  }

  lemma InterleavingValid(a: seq<Job>, b: seq<Job>, q: seq<Job>)
    requires Interleaving(a, b, q) && AllValid(q)
    ensures AllValid(a) && AllValid(b)
  {
    InterleavingMultiset(a, b, q);
    AllValidSub(a, q);
    AllValidSub(b, q);
  }

  /** The scan's started jobs can be carried out, the jobs it leaves are
      valid and its free count is not negative. */
  predicate ScanSafe(r: ScanResult)
  {
    Startable(Picks(r.picked)) && AllValid(r.rest) && r.free >= 0
  }

  /** A scan over valid jobs and free nodes starts valid jobs within the
      free nodes, leaves valid jobs queued and no negative free count. */
  lemma ScanStartable(q: seq<Job>, free: int, limit: int, stopAtZero: bool, guard: Guard)
    requires AllValid(q) && free >= 0
    ensures var r := Scan(q, free, 0, None, limit, stopAtZero, guard);
            ScanSafe(r) && DecisionNodes(Picks(r.picked)) <= free
  {
    var r := Scan(q, free, 0, None, limit, stopAtZero, guard);
    ScanAccounting(q, free, 0, None, limit, stopAtZero, guard);
    InterleavingValid(r.picked, r.rest, q);
    PicksStartable(r.picked);
    PicksNodes(r.picked);
  }

  /** The FIFO admission starts valid jobs within the free nodes. */
  lemma FitStartable(q: seq<Job>, free: int)
    requires AllValid(q) && free >= 0
    ensures var k := FitCount(q, free);
            Startable(Picks(q[..k])) && AllValid(q[k..]) && DecisionNodes(Picks(q[..k])) <= free
  {
    var k := FitCount(q, free);
    FitCountLongest(q, free);
    PicksNodes(q[..k]);
    assert AllValid(q[..k]) by {
      forall i | 0 <= i < k ensures ValidJob(q[..k][i]) { assert q[..k][i] == q[i]; }
    }
    assert AllValid(q[k..]) by {
      forall i | 0 <= i < |q| - k ensures ValidJob(q[k..][i]) { assert q[k..][i] == q[k + i]; }
    }
    PicksStartable(q[..k]);
  }

  /** The projection stays a sorted sequence of entries after the purge. */
  lemma SortProjectionSorted(d: seq<(int, int)>)
    ensures SortedBy(SortProjection(d), (e: (int, int)) => e)
    ensures multiset(SortProjection(d)) == multiset(d)
  {
    SortBySorted(d, (e: (int, int)) => e);
    SortByPermutation(d, (e: (int, int)) => e);
  }
}
