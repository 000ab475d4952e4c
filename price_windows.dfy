/** The energy-price look-ahead of the price-aware schedulers.  For the job
    at the head of the queue they compare the energy cost of starting it now
    with the cost of starting it at a later hour boundary of the horizon
    (`price[i]` is the price `i` hours from now), charging the nodes that
    wait idle meanwhile, and either start the job or sleep until the
    cheapest window.  Costs are in the energy model's currency per kWh
    times kWh; amounts are exact reals. */
module PriceWindows {
  import opened Common

  /** Python's `int(d / 3600)`: the whole hours of a run length, truncated
      toward zero. */
  function HoursNeeded(d: int): (h: int)
    ensures d >= 0 ==> 0 <= h && 3600 * h <= d < 3600 * (h + 1)
    ensures d < 0 ==> h <= 0 && 3600 * (h - 1) < d <= 3600 * h
  {
    if d >= 0 then d / 3600 else -((-d) / 3600)
  }

  /** What the search needs to know about the head job: its power draw
      while running, the idle draw of the nodes it keeps waiting, its
      shortest run length, and the seconds left in the current hour. */
  datatype Costs = Costs(power: real, idle: real, duration: int, tSec: int)
  {
    function Rem(): int { duration % 3600 }
    function Hours(): int { HoursNeeded(duration) }
  }

  /** A candidate start: the window (0 = now), whether the job is aligned
      to end with the window's last hour, and its cost. */
  datatype Choice = Choice(hour: int, last: bool, cost: real)

  /** `sum(price[h] * f for h in range(lo, hi))`. */
  function Weighted(price: seq<real>, lo: int, hi: int, f: real): real
    requires 0 <= lo && hi <= |price|
    decreases hi - lo
  {
    if hi <= lo then 0.0 else Weighted(price, lo, hi - 1, f) + price[hi - 1] * f
  }

  method WeightedSum(price: seq<real>, lo: int, hi: int, f: real) returns (s: real)
    requires 0 <= lo && hi <= |price|
    ensures s == Weighted(price, lo, hi, f)
  {
    s := 0.0;
    if hi <= lo {
      return;
    }
    for h := lo to hi
      invariant s == Weighted(price, lo, h, f)
    {
      s := s + price[h] * f;
    }
  }

  /** A flat price weighs every hour alike. */
  lemma {:induction false} WeightedFlat(price: seq<real>, lo: int, hi: int, f: real, p: real)
    requires 0 <= lo && hi <= |price| && forall i | 0 <= i < |price| :: price[i] == p
    ensures Weighted(price, lo, hi, f) == if hi <= lo then 0.0 else (hi - lo) as real * (p * f)
    decreases hi - lo
  {
    if lo < hi {
      WeightedFlat(price, lo, hi - 1, f, p);
    }
  }

  // ---------------------------------------------------------------------
  // The cost of starting now

  /** Energy cost of starting the job now, discounted by 0.1 percent to
      favour an immediate start.  A job whose remainder fits into the rest
      of this hour is charged for the remainder only, whatever its whole
      hours. */
  function NowCost(price: seq<real>, c: Costs): real
    requires c.duration >= 0 && c.Hours() < |price|
  {
    var rem := c.Rem();
    var hN := c.Hours();
    var raw :=
      if c.tSec > rem then price[0] * rem as real
      else
        var tRem := c.duration - c.tSec - 3600 * (hN - 1);
        price[0] * c.tSec as real + Weighted(price, 1, hN, 3600.0) + (if tRem > 0 then price[hN] * tRem as real else 0.0);
    raw * c.power / 1000.0 / 3600.0 * 0.999
  }

  /** Seconds the now-cost charges: the remainder alone when it ends within
      this hour, else the whole run, and an hour more for a run shorter than
      an hour that does not end within this hour. */
  function ChargedSeconds(c: Costs): int
  {
    if c.tSec > c.Rem() then c.Rem()
    else if c.Hours() == 0 then c.duration + 3600
    else c.duration
  }

  /** Under a flat price the now-cost is the price of the charged seconds. */
  lemma NowCostFlat(price: seq<real>, c: Costs, p: real)
    requires c.duration >= 0 && c.Hours() < |price| && 1 <= c.tSec <= 3600
    requires forall i | 0 <= i < |price| :: price[i] == p
    ensures NowCost(price, c) == p * ChargedSeconds(c) as real * c.power / 1000.0 / 3600.0 * 0.999
  {
    var rem := c.Rem();
    var hN := c.Hours();
    if c.tSec <= rem {
      WeightedFlat(price, 1, hN, 3600.0, p);
      var tRem := c.duration - c.tSec - 3600 * (hN - 1);
      assert c.duration == 3600 * hN + rem;
      assert tRem > 0;
      var raw := price[0] * c.tSec as real + Weighted(price, 1, hN, 3600.0) + price[hN] * tRem as real;
      if hN == 0 {
        assert raw == p * c.tSec as real + p * tRem as real;
        assert raw == p * (c.duration + 3600) as real;
      } else {
        assert raw == p * c.tSec as real + (hN - 1) as real * (p * 3600.0) + p * tRem as real;
        assert raw == p * c.duration as real;
      }
    }
  }

  method NowCostOf(price: seq<real>, c: Costs) returns (cost: real)
    requires c.duration >= 0 && c.Hours() < |price|
    ensures cost == NowCost(price, c)
  {
    var rem := c.duration % 3600;
    var hN := HoursNeeded(c.duration);
    var raw: real;
    if c.tSec > rem {
      raw := price[0] * rem as real;
    } else {
      var hours := WeightedSum(price, 1, hN, 3600.0);
      raw := price[0] * c.tSec as real + hours;
      var tRem := c.duration - c.tSec - 3600 * (hN - 1);
      if tRem > 0 {
        raw := raw + price[hN] * tRem as real;
      } else {
        raw := raw + 0.0;
      }
    }
    cost := raw * c.power / 1000.0 / 3600.0 * 0.999;
  }

  // ---------------------------------------------------------------------
  // Idle cost of waiting

  /** Cost of keeping the job's nodes idle until window `w` starts: the rest
      of this hour, then every whole hour before `w`. */
  function IdleBefore(price: seq<real>, c: Costs, w: int): real
    requires 1 <= w <= |price|
  {
    if w == 1 then price[0] * c.tSec as real * c.idle / 1000.0 / 3600.0
    else IdleBefore(price, c, w - 1) + price[w - 1] * c.idle / 1000.0
  }

  /** Waiting costs nothing when the nodes draw no idle power. */
  lemma {:induction false} IdleBeforeZero(price: seq<real>, c: Costs, w: int)
    requires 1 <= w <= |price| && c.idle == 0.0
    ensures IdleBefore(price, c, w) == 0.0
  {
    if w > 1 {
      IdleBeforeZero(price, c, w - 1);
    }
  }

  /** With non-negative prices and idle draw, waiting longer never costs less. */
  lemma {:induction false} IdleBeforeGrows(price: seq<real>, c: Costs, v: int, w: int)
    requires 1 <= v <= w <= |price| && c.idle >= 0.0
    requires forall i | 0 <= i < |price| :: price[i] >= 0.0
    ensures IdleBefore(price, c, v) <= IdleBefore(price, c, w)
    decreases w - v
  {
    if v < w {
      IdleBeforeGrows(price, c, v, w - 1);
      assert price[w - 1] * c.idle >= 0.0;
    }
  }

  // ---------------------------------------------------------------------
  // Jobs shorter than an hour: run within one window

  /** Cost of waiting until window `w` and running there. */
  function ShortCost(price: seq<real>, c: Costs, w: int): real
    requires 1 <= w < |price|
  {
    IdleBefore(price, c, w) + price[w] * c.power * c.Rem() as real / 1000.0 / 3600.0
  }

  /** The cheapest choice after examining the windows `1 .. n-1`: the update
      needs a strictly lower cost, so an earlier window wins a tie. */
  function ShortBest(price: seq<real>, c: Costs, now: real, n: int): Choice
    requires 1 <= n <= |price|
  {
    if n == 1 then Choice(0, false, now)
    else
      var b := ShortBest(price, c, now, n - 1);
      var x := ShortCost(price, c, n - 1);
      if x < b.cost then Choice(n - 1, true, x) else b
  }

  method ShortSearch(price: seq<real>, c: Costs, now: real) returns (best: Choice)
    requires |price| >= 1
    ensures best == ShortBest(price, c, now, |price|)
  {
    best := Choice(0, false, now);
    var rem := c.duration % 3600;
    var idlePrice := price[0] * c.tSec as real * c.idle / 1000.0 / 3600.0;
    var w := 1;
    while w < |price|
      invariant 1 <= w <= |price|
      invariant idlePrice == IdleBefore(price, c, w) && best == ShortBest(price, c, now, w)
      decreases |price| - w
    {
      best, idlePrice := ShortWindowStep(price, c, now, w, rem, idlePrice, best);
      w := w + 1;
    }
  }

  /** One window of the short search: price running there, then add the
      window's idle hour. */
  method ShortWindowStep(price: seq<real>, c: Costs, now: real, w: int, rem: int, idlePrice: real, best: Choice)
    returns (best': Choice, idlePrice': real)
    requires 1 <= w < |price| && rem == c.duration % 3600
    requires idlePrice == IdleBefore(price, c, w) && best == ShortBest(price, c, now, w)
    ensures idlePrice' == IdleBefore(price, c, w + 1) && best' == ShortBest(price, c, now, w + 1)
  {
    var cPrice := idlePrice + price[w] * c.power * rem as real / 1000.0 / 3600.0;
    assert c.Rem() == rem;
    assert cPrice == ShortCost(price, c, w);
    best' := best;
    if cPrice < best.cost {
      best' := Choice(w, true, cPrice);
    }
    idlePrice' := idlePrice + price[w] * c.idle / 1000.0;
  }

  /** The short search picks the first cheapest window, and moves the job
      only when that is strictly cheaper than starting now. */
  lemma {:induction false} ShortBestCheapest(price: seq<real>, c: Costs, now: real, n: int)
    requires 1 <= n <= |price|
    ensures var r := ShortBest(price, c, now, n);
            r.cost <= now &&
            (r.hour == 0 <==> r.cost == now && forall w | 1 <= w < n :: ShortCost(price, c, w) >= now) &&
            (r.hour != 0 ==> 1 <= r.hour < n && r.last && r.cost == ShortCost(price, c, r.hour) && r.cost < now) &&
            (forall w | 1 <= w < n :: r.cost <= ShortCost(price, c, w)) &&
            (forall w | 1 <= w < r.hour :: r.cost < ShortCost(price, c, w))
  {
    if n > 1 {
      ShortBestCheapest(price, c, now, n - 1);
    }
  }

  // ---------------------------------------------------------------------
  // Jobs of an hour or more: whole hours plus one partial edge hour

  /** Price of the partial hour when the job is aligned to end with the
      window's last hour: the remainder runs in the hour after the whole
      hours, with the rest of that hour idle. */
  function PLast(price: seq<real>, c: Costs, w: int): real
    requires 1 <= w && c.Hours() >= 0 && c.Hours() + w + 1 < |price|
  {
    price[c.Hours() + w + 1] * (c.power * c.Rem() as real + (3600 - c.Rem()) as real * c.idle) / 1000.0 / 3600.0
  }

  /** Price of the partial hour when the job starts early, in the hour
      before the window. */
  function PFirst(price: seq<real>, c: Costs, w: int): real
    requires 1 <= w < |price|
  {
    price[w - 1] * (c.Rem() as real * c.power + (3600 - c.Rem() - c.Rem()) as real * c.idle) / 1000.0 / 3600.0
  }

  /** The alignment the code takes: the last-hour edge when the first-hour
      edge is dearer, and always in the first window (the code then adds
      the cheaper of the two edges). */
  predicate EdgeLast(price: seq<real>, c: Costs, w: int)
    requires 1 <= w && c.Hours() >= 0 && c.Hours() + w + 1 < |price|
  {
    PFirst(price, c, w) > PLast(price, c, w) || w == 1
  }

  /** Cost of running the job from window `w`: its whole hours and the
      chosen edge. */
  function RunCost(price: seq<real>, c: Costs, w: int): real
    requires 1 <= w && c.Hours() >= 0 && c.Hours() + w + 1 < |price|
  {
    Weighted(price, w, w + c.Hours(), c.power / 1000.0) +
    (if EdgeLast(price, c, w) then PLast(price, c, w) else PFirst(price, c, w))
  }

  /** Cost of waiting until window `w` and running from there. */
  function LongCost(price: seq<real>, c: Costs, w: int): real
    requires 1 <= w && c.Hours() >= 0 && c.Hours() + w + 1 < |price|
  {
    IdleBefore(price, c, w) + RunCost(price, c, w)
  }

  /** The cost of running from window `w` and its edge alignment. */
  method WindowCost(price: seq<real>, c: Costs, w: int) returns (cost: real, last: bool)
    requires 1 <= w && c.Hours() >= 0 && c.Hours() + w + 1 < |price|
    ensures cost == RunCost(price, c, w) && last == EdgeLast(price, c, w)
  {
    cost := WeightedSum(price, w, c.Hours() + w, c.power / 1000.0);
    var pLast := PLast(price, c, w);
    var pFirst := PFirst(price, c, w);
    last := pFirst > pLast || w == 1;
    if last {
      cost := cost + pLast;
    } else {
      cost := cost + pFirst;
    }
  }

  /** The number of window positions the long search may examine, plus one. */
  function LongWindows(price: seq<real>, c: Costs): int
  {
    |price| - c.Hours() - 1
  }

  /** State of the long search: the best choice so far, and whether the
      search stopped because waiting alone already cost more than it. */
  datatype Search = Search(best: Choice, stopped: bool)

  function LongSearchUpTo(price: seq<real>, c: Costs, now: real, n: int): Search
    requires c.Hours() >= 0 && 1 <= n <= LongWindows(price, c)
  {
    if n == 1 then Search(Choice(0, false, now), false)
    else
      var s := LongSearchUpTo(price, c, now, n - 1);
      var w := n - 1;
      if s.stopped then s
      else if IdleBefore(price, c, w) > s.best.cost then Search(s.best, true)
      else
        var x := LongCost(price, c, w);
        if x < s.best.cost then Search(Choice(w, EdgeLast(price, c, w), x), false) else s
  }

  /** Window `w` was priced: the search had not stopped when it reached it. */
  predicate Examined(price: seq<real>, c: Costs, now: real, w: int)
    requires c.Hours() >= 0 && 1 <= w < LongWindows(price, c)
  {
    !LongSearchUpTo(price, c, now, w + 1).stopped
  }

  /** Once stopped, the search keeps its best choice. */
  lemma {:induction false} LongStoppedStays(price: seq<real>, c: Costs, now: real, n: int, m: int)
    requires c.Hours() >= 0 && 1 <= n <= m <= LongWindows(price, c)
    requires LongSearchUpTo(price, c, now, n).stopped
    ensures LongSearchUpTo(price, c, now, m) == LongSearchUpTo(price, c, now, n)
    decreases m - n
  {
    if n < m {
      LongStoppedStays(price, c, now, n, m - 1);
    }
  }

  /** One window of the long search: stop when waiting alone already costs
      more than the best choice, otherwise price the window. */
  method LongWindowStep(price: seq<real>, c: Costs, now: real, w: int, idlePrice: real, best: Choice)
    returns (stop: bool, best': Choice, idlePrice': real)
    requires c.Hours() >= 0 && 1 <= w < LongWindows(price, c)
    requires idlePrice == IdleBefore(price, c, w) && LongSearchUpTo(price, c, now, w) == Search(best, false)
    ensures LongSearchUpTo(price, c, now, w + 1) == Search(best', stop)
    ensures stop ==> LongSearchUpTo(price, c, now, LongWindows(price, c)).best == best'
    ensures !stop ==> idlePrice' == IdleBefore(price, c, w + 1)
  {
    if idlePrice > best.cost {
      LongStoppedStays(price, c, now, w + 1, LongWindows(price, c));
      return true, best, idlePrice;
    }
    var run, last := WindowCost(price, c, w);
    var cPrice := idlePrice + run;
    idlePrice' := idlePrice + price[w] * c.idle / 1000.0;
    if cPrice < best.cost {
      return false, Choice(w, last, cPrice), idlePrice';
    }
    return false, best, idlePrice';
  }


  method LongSearch(price: seq<real>, c: Costs, now: real) returns (best: Choice)
    requires c.duration >= 0 && c.Hours() + 2 < |price|
    ensures best == LongSearchUpTo(price, c, now, LongWindows(price, c)).best
  {
    var n := LongWindows(price, c);
    best := Choice(0, false, now);
    var idlePrice := price[0] * c.tSec as real * c.idle / 1000.0 / 3600.0;
    var w := 1;
    while w < n
      invariant 1 <= w <= n
      invariant idlePrice == IdleBefore(price, c, w)
      invariant LongSearchUpTo(price, c, now, w) == Search(best, false)
      decreases n - w
    {
      var stop;
      stop, best, idlePrice := LongWindowStep(price, c, now, w, idlePrice, best);
      if stop {
        return;
      }
      w := w + 1;
    }
  }

  /** The long search moves the job only to a strictly cheaper window, to
      the first cheapest of the windows it priced, with the edge the code
      takes; and it stops only where waiting alone cost more than the best. */
  lemma {:induction false} LongSearchCheapest(price: seq<real>, c: Costs, now: real, n: int)
    requires c.Hours() >= 0 && 1 <= n <= LongWindows(price, c)
    ensures var s := LongSearchUpTo(price, c, now, n);
            var r := s.best;
            r.cost <= now && (r.hour == 0 ==> r.cost == now) &&
            (r.hour != 0 ==> 1 <= r.hour < n && r.last == EdgeLast(price, c, r.hour) &&
                             r.cost == LongCost(price, c, r.hour) && r.cost < now) &&
            (forall w | 1 <= w < n && Examined(price, c, now, w) :: r.cost <= LongCost(price, c, w)) &&
            (forall w | 1 <= w < r.hour :: Examined(price, c, now, w) && r.cost < LongCost(price, c, w))
  {
    if n > 1 {
      LongSearchCheapest(price, c, now, n - 1);
      var s := LongSearchUpTo(price, c, now, n - 1);
      forall w | 1 <= w < n - 1 && !Examined(price, c, now, w)
        ensures s.stopped
      {
        LongStoppedStays(price, c, now, w + 1, n - 1);
      }
    }
  }

  // ---------------------------------------------------------------------
  // The enforcing variant

  /** The first index of the lowest price among `price[1 .. n-1]`. */
  function FirstMinIndex(price: seq<real>, n: int): (k: int)
    requires 2 <= n <= |price|
    ensures 1 <= k < n
  {
    if n == 2 then 1
    else
      var k := FirstMinIndex(price, n - 1);
      if price[n - 1] < price[k] then n - 1 else k
  }

  lemma {:induction false} FirstMinIndexLowest(price: seq<real>, n: int)
    requires 2 <= n <= |price|
    ensures var k := FirstMinIndex(price, n);
            (forall w | 1 <= w < n :: price[k] <= price[w]) && (forall w | 1 <= w < k :: price[k] < price[w])
  {
    if n > 2 {
      FirstMinIndexLowest(price, n - 1);
    }
  }

  /** The cheapest hour of the horizon after this one; the running minimum
      starts at infinity (`1e309` overflows to it), so the first hour
      always takes it. */
  method CheapestHour(price: seq<real>) returns (step: int, minT: real)
    requires |price| >= 2
    ensures step == FirstMinIndex(price, |price|) && minT == price[step]
  {
    var m: Option<real> := None;
    step := 0;
    for w := 1 to |price|
      invariant w == 1 ==> m.None? && step == 0
      invariant w > 1 ==> step == FirstMinIndex(price, w) && m == Some(price[step])
    {
      if m.None? || price[w] < m.value {
        m := Some(price[w]);
        step := w;
      }
    }
    minT := m.value;
  }

  /** The enforcing variant for a short job: the cheapest hour, taken when
      running there beats starting now. */
  function EnforceShortChoice(price: seq<real>, c: Costs, now: real): (r: Choice)
    requires |price| >= 2
    ensures r.hour == 0 ==> r == Choice(0, false, now)
    ensures r.hour != 0 ==> r.hour == FirstMinIndex(price, |price|) && r.last && r.cost < now
  {
    var k := FirstMinIndex(price, |price|);
    var m := price[k] * c.power * c.Rem() as real / 1000.0 / 3600.0;
    if m < now then Choice(k, true, m) else Choice(0, false, now)
  }

  /** The enforcing variant for a long job: no idle charge, no early stop,
      and a window must undercut the best so far by 0.1 percent. */
  function EnforceBestUpTo(price: seq<real>, c: Costs, now: real, n: int): Choice
    requires c.Hours() >= 0 && 1 <= n <= LongWindows(price, c)
  {
    if n == 1 then Choice(0, false, now)
    else
      var b := EnforceBestUpTo(price, c, now, n - 1);
      var x := RunCost(price, c, n - 1);
      if x < b.cost * 0.999 then Choice(n - 1, EdgeLast(price, c, n - 1), x) else b
  }

  method EnforceLongSearch(price: seq<real>, c: Costs, now: real) returns (best: Choice)
    requires c.duration >= 0 && c.Hours() + 2 < |price|
    ensures best == EnforceBestUpTo(price, c, now, LongWindows(price, c))
  {
    var rem := c.duration % 3600;
    var hN := HoursNeeded(c.duration);
    best := Choice(0, false, now);
    for w := 1 to |price| - hN - 1
      invariant best == EnforceBestUpTo(price, c, now, w)
    {
      var run, last := WindowCost(price, c, w);
      var cPrice := 0.0 + run;
      if cPrice < best.cost * 0.999 {
        best := Choice(w, last, cPrice);
      }
    }
  }

  /** What the enforcing long search picks; with non-negative costs no
      priced window undercuts the pick by more than the 0.1 percent margin. */
  lemma {:induction false} EnforceBestShape(price: seq<real>, c: Costs, now: real, n: int)
    requires c.Hours() >= 0 && 1 <= n <= LongWindows(price, c)
    ensures var r := EnforceBestUpTo(price, c, now, n);
            (r.hour == 0 ==> r == Choice(0, false, now)) &&
            (r.hour != 0 ==> 1 <= r.hour < n && r.last == EdgeLast(price, c, r.hour) &&
                             r.cost == RunCost(price, c, r.hour))
  {
    if n > 1 {
      EnforceBestShape(price, c, now, n - 1);
    }
  }

  lemma {:induction false} EnforceBestNearCheapest(price: seq<real>, c: Costs, now: real, n: int)
    requires c.Hours() >= 0 && 1 <= n <= LongWindows(price, c) && now >= 0.0
    requires forall w | 1 <= w < n :: RunCost(price, c, w) >= 0.0
    ensures var r := EnforceBestUpTo(price, c, now, n);
            0.0 <= r.cost <= now && forall w | 1 <= w < n :: 0.999 * r.cost <= RunCost(price, c, w)
  {
    if n > 1 {
      EnforceBestNearCheapest(price, c, now, n - 1);
    }
  }

  // ---------------------------------------------------------------------
  // The decision

  /** The price-aware schedulers' choice for an eligible head job. */
  function PriceAwareChoice(price: seq<real>, c: Costs, now: real): Choice
    requires c.duration >= 0 && c.Hours() + 2 < |price|
  {
    if c.duration < 3600 then ShortBest(price, c, now, |price|)
    else LongSearchUpTo(price, c, now, LongWindows(price, c)).best
  }

  /** The enforcing scheduler's choice for an eligible head job. */
  function EnforceChoice(price: seq<real>, c: Costs, now: real): Choice
    requires c.duration >= 0 && c.Hours() + 2 < |price|
  {
    if c.duration < 3600 then EnforceShortChoice(price, c, now)
    else EnforceBestUpTo(price, c, now, LongWindows(price, c))
  }

  /** Seconds to sleep until the chosen window: to the end of the hour
      before it when aligned to its last hour, otherwise early enough for the
      remainder to run in the hour before. */
  function Delay(ch: Choice, c: Costs): int
  {
    (ch.hour - 1) * 3600 + (if ch.last then c.tSec else c.tSec - c.Rem())
  }

  /** A choice the searches can make: now, or a window of the horizon that
      is aligned to its last hour whenever it is the first window. */
  predicate Feasible(ch: Choice, horizon: int)
  {
    ch.hour == 0 || (1 <= ch.hour < horizon && (ch.hour == 1 ==> ch.last))
  }

  lemma ChoicesFeasible(price: seq<real>, c: Costs, now: real)
    requires c.duration >= 0 && c.Hours() + 2 < |price|
    ensures Feasible(PriceAwareChoice(price, c, now), |price|)
    ensures Feasible(EnforceChoice(price, c, now), |price|)
  {
    if c.duration < 3600 {
      ShortBestCheapest(price, c, now, |price|);
    } else {
      LongSearchCheapest(price, c, now, LongWindows(price, c));
      EnforceBestShape(price, c, now, LongWindows(price, c));
    }
  }

  /** The sleep is positive and never reaches past the horizon. */
  lemma DelayBounds(ch: Choice, c: Costs, horizon: int)
    requires Feasible(ch, horizon) && ch.hour != 0 && 1 <= c.tSec <= 3600
    ensures 0 < Delay(ch, c) <= 3600 * (horizon - 1)
  {
  }
}
