/** Electricity price models: what one kilowatt-hour costs at a given time,
    and what a constant power draw over an interval costs.  The hourly models
    charge the interval hour by hour: the part up to the next full hour, then
    whole hours, then the remainder, each at its own hour's price. */
module EnergyCosts {
  import opened Common
  import opened Text

  const FixedPricePerKWh: real := 0.145
  const DayPricePerKWh: real := 0.16675
  const NightPricePerKWh: real := 0.1
  const DayStarts: int := 6
  const DayEnds: int := 22

  /** The four models: the base model charges nothing; the fixed model one
      price; the hourly model looks prices up by clock hour; the stock-price
      model looks them up by hours elapsed since the first event (1-based). */
  datatype PriceModel =
    | Base
    | FixedPrice
    | Hourly(price: map<int, real>)
    | HourlyStock(price: map<int, real>)

  datatype PriceError =
    | KeyError(key: int)       // no price recorded for that hour or bucket
    | NoFirstTimestamp         // the first timestamp was never set (None in arithmetic)
    | AssertionFailed          // one of the models' assertions fails

  /** Seconds of an interval of `duration` seconds spent in each consecutive
      hour slot, starting with the `tSec` seconds up to the next full hour.
      When the interval ends within the first hour there is one slot. */
  function HourSplit(tSec: int, duration: int): seq<int>
  {
    if tSec < duration then
      var rest := duration - tSec;
      [tSec] + seq(rest / 3600, _ => 3600) + [rest % 3600]
    else [duration]
  }

  function Sum(s: seq<int>): int
  {
    if s == [] then 0 else Sum(s[..|s| - 1]) + s[|s| - 1]
  }

  lemma SumConcat(a: seq<int>, b: seq<int>)
    ensures Sum(a + b) == Sum(a) + Sum(b)
    decreases |b|
  {
    if b == [] {
      assert a + b == a;
    } else {
      var n := |b| - 1;
      assert (a + b)[..|a + b| - 1] == a + b[..n];
      assert (a + b)[|a + b| - 1] == b[n];
      SumConcat(a, b[..n]);
    }
  }

  lemma {:induction false} SumConstant(k: nat, c: int)
    ensures Sum(seq(k, _ => c)) == k * c
  {
    if k > 0 {
      SumConstant(k - 1, c);
      assert seq(k, _ => c)[..k - 1] == seq(k - 1, _ => c);
    }
  }

  /** The slots cover the interval exactly: the first slot ends at the full
      hour, every middle slot is a whole hour and the last is a remainder. */
  lemma HourSplitCovers(tSec: int, duration: int)
    requires 1 <= tSec <= 3600
    ensures Sum(HourSplit(tSec, duration)) == duration
    ensures tSec < duration ==>
      var s := HourSplit(tSec, duration);
      |s| == (duration - tSec) / 3600 + 2 && s[0] == tSec && 0 <= s[|s| - 1] < 3600 &&
      forall i | 0 < i < |s| - 1 :: s[i] == 3600
  {
    if tSec < duration {
      var rest := duration - tSec;
      var mid := seq(rest / 3600, _ => 3600);
      SumConcat([tSec] + mid, [rest % 3600]);
      SumConcat([tSec], mid);
      SumConstant(rest / 3600, 3600);
      assert Sum([tSec]) == tSec;
      assert Sum([rest % 3600]) == rest % 3600 by { assert [rest % 3600][..0] == []; }
    } else {
      assert Sum([duration]) == duration by { assert [duration][..0] == []; }
    }
  }

  /** The price key of the `i`-th slot after the one keyed `first`: clock
      hours wrap around at 24, stock buckets count on. */
  function SlotKey(first: int, i: int, wrap: bool): int
  {
    if wrap then (first + i) % 24 else first + i
  }

  /** The key after a slot's key, as the loops advance it. */
  function NextKey(key: int, wrap: bool): int
  {
    if wrap then (key + 1) % 24 else key + 1
  }

  lemma NextSlotKey(first: int, i: int, wrap: bool)
    ensures NextKey(SlotKey(first, i, wrap), wrap) == SlotKey(first, i + 1, wrap)
  {
    if wrap {
      var q := (first + i) / 24;
      assert first + i == 24 * q + (first + i) % 24;
      assert first + i + 1 == 24 * q + ((first + i) % 24 + 1);
      if (first + i) % 24 + 1 == 24 {
        assert first + i + 1 == 24 * (q + 1);
      }
    }
  }

  function SlotKeys(first: int, n: nat, wrap: bool): (keys: seq<int>)
    ensures |keys| == n
  {
    seq(n, i => SlotKey(first, i, wrap))
  }

  /** What one slot costs: price times power times seconds. */
  function SlotCost(price: real, power: real, seconds: int): real
  {
    price * power * seconds as real
  }

  lemma SlotCostAdditive(price: real, power: real, a: int, b: int)
    ensures SlotCost(price, power, a) + SlotCost(price, power, b) == SlotCost(price, power, a + b)
  {
    assert (a + b) as real == a as real + b as real;
    var pw := price * power;
    assert pw * a as real + pw * b as real == pw * (a as real + b as real);
  }

  lemma SlotCostNonNegative(price: real, power: real, seconds: int)
    requires price >= 0.0 && power >= 0.0 && seconds >= 0
    ensures SlotCost(price, power, seconds) >= 0.0
  {
    var pw := price * power;
    assert pw >= 0.0;
    assert pw * seconds as real >= 0.0;
  }

  /** Price times power times seconds, summed over the slots in order; the
      first slot whose key has no price is the error. */
  function Charge(price: map<int, real>, keys: seq<int>, split: seq<int>, power: real): Result<real, PriceError>
    requires |keys| == |split|
  {
    if keys == [] then Ok(0.0)
    else
      var n := |keys| - 1;
      match Charge(price, keys[..n], split[..n], power)
      case Err(e) => Err(e)
      case Ok(c) =>
        if keys[n] in price then Ok(c + SlotCost(price[keys[n]], power, split[n]))
        else Err(KeyError(keys[n]))
  }

  /** Once a slot's key is missing, no later slot changes the outcome. */
  lemma {:induction false} ChargeFirstMissing(price: map<int, real>, keys: seq<int>, split: seq<int>,
                                              power: real, i: nat, m: nat)
    requires |keys| == |split| && i < m <= |keys|
    requires Charge(price, keys[..i], split[..i], power).Ok? && keys[i] !in price
    ensures Charge(price, keys[..m], split[..m], power) == Err(KeyError(keys[i]))
    decreases m
  {
    if m == i + 1 {
      assert keys[..m][..i] == keys[..i] && split[..m][..i] == split[..i];
    } else {
      ChargeFirstMissing(price, keys, split, power, i, m - 1);
      assert keys[..m][..m - 1] == keys[..m - 1] && split[..m][..m - 1] == split[..m - 1];
    }
  }

  /** A charge fails only on a key with no price. */
  lemma {:induction false} ChargeKeyError(price: map<int, real>, keys: seq<int>, split: seq<int>, power: real)
    requires |keys| == |split|
    ensures Charge(price, keys, split, power).Err? ==>
      Charge(price, keys, split, power).error.KeyError? && Charge(price, keys, split, power).error.key !in price
  {
    if keys != [] {
      var n := |keys| - 1;
      ChargeKeyError(price, keys[..n], split[..n], power);
    }
  }

  lemma ChargeStep(price: map<int, real>, keys: seq<int>, split: seq<int>, power: real, i: nat, c: real)
    requires |keys| == |split| && i < |keys|
    requires Charge(price, keys[..i], split[..i], power) == Ok(c) && keys[i] in price
    ensures Charge(price, keys[..i + 1], split[..i + 1], power) == Ok(c + SlotCost(price[keys[i]], power, split[i]))
  {
    var k := keys[..i + 1];
    var t := split[..i + 1];
    assert k[..i] == keys[..i] && t[..i] == split[..i];
    assert |k| - 1 == i && k[i] == keys[i] && t[i] == split[i];
  }

  /** With one price for every slot, the charge is that price times power
      times the total seconds. */
  lemma {:induction false} ChargeConstant(price: map<int, real>, keys: seq<int>, split: seq<int>, power: real, p: real)
    requires |keys| == |split|
    requires forall i | 0 <= i < |keys| :: keys[i] in price && price[keys[i]] == p
    ensures Charge(price, keys, split, power) == Ok(SlotCost(p, power, Sum(split)))
  {
    if keys != [] {
      var n := |keys| - 1;
      ChargeConstant(price, keys[..n], split[..n], power, p);
      assert split[..n] == split[..|split| - 1];
      ChargeStep(price, keys, split, power, n, SlotCost(p, power, Sum(split[..n])));
      assert keys[..n + 1] == keys && split[..n + 1] == split;
      SlotCostAdditive(p, power, Sum(split[..n]), split[n]);
    } else {
      assert SlotCost(p, power, Sum(split)) == 0.0 by {
        var pw := p * power;
        assert pw * 0.0 == 0.0;
      }
    }
  }

  /** With no negative price, power or slot, the charge is defined and not
      negative. */
  lemma {:induction false} ChargeNonNegative(price: map<int, real>, keys: seq<int>, split: seq<int>, power: real)
    requires |keys| == |split|
    requires forall i | 0 <= i < |keys| :: keys[i] in price && price[keys[i]] >= 0.0 && split[i] >= 0
    requires power >= 0.0
    ensures Charge(price, keys, split, power).Ok? && Charge(price, keys, split, power).value >= 0.0
  {
    if keys != [] {
      var n := |keys| - 1;
      ChargeNonNegative(price, keys[..n], split[..n], power);
      SlotCostNonNegative(price[keys[n]], power, split[n]);
    }
  }

  /** The 1-based hour bucket of a timestamp in the stock-price table; the
      elapsed hours are truncated toward zero. */
  function Bucket(firstTime: int, time: int): int
  {
    TruncToInt((time - firstTime) as real / 3600.0) + 1
  }

  /** From the first timestamp on, bucket k holds the k-th hour; the hour
      before the first timestamp also falls into bucket 1. */
  lemma BucketOfTime(firstTime: int, time: int)
    ensures time >= firstTime ==> Bucket(firstTime, time) == (time - firstTime) / 3600 + 1
    ensures firstTime - 3600 < time < firstTime ==> Bucket(firstTime, time) == 1
  {
    var x := (time - firstTime) as real / 3600.0;
    var t := TruncToInt(x);
    if time >= firstTime {
      var q := (time - firstTime) / 3600;
      var r := (time - firstTime) % 3600;
      assert (time - firstTime) == 3600 * q + r;
      assert x == q as real + r as real / 3600.0;
      assert t == q;
    } else if firstTime - 3600 < time {
      assert -1.0 < x < 0.0;
      assert t == 0;
    }
  }

  /** The price a model quotes for a timestamp whose clock reading is `clock`. */
  function QuotedPrice(m: PriceModel, firstTime: Option<int>, time: int, clock: Clock): (r: Result<real, PriceError>)
    ensures m.Base? ==> r == Ok(0.0)
    ensures m.FixedPrice? ==> r == Ok(FixedPricePerKWh)
    ensures m.Hourly? && clock.hour in m.price ==> r == Ok(m.price[clock.hour])
    ensures m.Hourly? && clock.hour !in m.price ==> r == Err(KeyError(clock.hour))
    ensures m.HourlyStock? && firstTime.None? ==> r == Err(NoFirstTimestamp)
    ensures m.HourlyStock? && firstTime.Some? && time >= firstTime.value ==>
      var k := (time - firstTime.value) / 3600 + 1;
      (k in m.price ==> r == Ok(m.price[k])) && (k !in m.price ==> r == Err(KeyError(k)))
  {
    match m
    case Base => Ok(0.0)
    case FixedPrice => Ok(FixedPricePerKWh)
    case Hourly(price) => if clock.hour in price then Ok(price[clock.hour]) else Err(KeyError(clock.hour))
    case HourlyStock(price) =>
      if firstTime.None? then Err(NoFirstTimestamp)
      else
        var b := Bucket(firstTime.value, time);
        BucketOfTime(firstTime.value, time);
        if b in price then Ok(price[b]) else Err(KeyError(b))
  }

  /** The cost, in currency units, of drawing `power` watts from `startTime`
      to `endTime`, the interval starting at clock reading `clock`. */
  function IntervalCost(m: PriceModel, firstTime: Option<int>, startTime: int, endTime: int,
                        power: real, clock: Clock): (r: Result<real, PriceError>)
    ensures m.Base? ==> r == Ok(0.0)
    ensures m.FixedPrice? ==> r == Ok(SlotCost(FixedPricePerKWh, power, endTime - startTime) / 1000.0 / 3600.0)
    ensures m.Hourly? && r.Ok? ==> r.value >= 0.0
    ensures m.HourlyStock? && power < 0.0 ==> r == Err(AssertionFailed)
    ensures m.HourlyStock? && power >= 0.0 && firstTime.None? ==> r == Err(NoFirstTimestamp)
    ensures m.HourlyStock? && power >= 0.0 && firstTime.Some? && endTime <= startTime ==> r == Err(AssertionFailed)
    ensures (m.Hourly? || m.HourlyStock?) && r.Err? && r.error.KeyError? ==> r.error.key !in m.price
  {
    var tSec := SecondsToFullHour(clock);
    match m
    case Base => Ok(0.0)
    case FixedPrice => Ok(SlotCost(FixedPricePerKWh, power, endTime - startTime) / 1000.0 / 3600.0)
    case Hourly(price) =>
      var split := HourSplit(tSec, endTime - startTime);
      ChargeKeyError(price, SlotKeys(clock.hour, |split|, true), split, power);
      (match Charge(price, SlotKeys(clock.hour, |split|, true), split, power)
       case Err(e) => Err(e)
       case Ok(c) => if c < 0.0 then Err(AssertionFailed) else Ok(c / 1000.0 / 3600.0))
    case HourlyStock(price) =>
      if power < 0.0 then Err(AssertionFailed)
      else if firstTime.None? then Err(NoFirstTimestamp)
      else if endTime - startTime <= 0 then Err(AssertionFailed)
      else
        var split := HourSplit(tSec, endTime - startTime);
        ChargeKeyError(price, SlotKeys(Bucket(firstTime.value, startTime), |split|, false), split, power);
        match Charge(price, SlotKeys(Bucket(firstTime.value, startTime), |split|, false), split, power)
        case Err(e) => Err(e)
        case Ok(c) => Ok(c / 1000.0 / 3600.0)
  }

  /** Within one hour slot an hourly model charges the price it quotes for
      the interval's start. */
  lemma CostWithinHour(m: PriceModel, firstTime: Option<int>, startTime: int, endTime: int, power: real, clock: Clock)
    requires !m.HourlyStock? || (power >= 0.0 && firstTime.Some? && endTime > startTime)
    requires endTime - startTime <= SecondsToFullHour(clock)
    requires QuotedPrice(m, firstTime, startTime, clock).Ok?
    requires m.Hourly? ==> SlotCost(QuotedPrice(m, firstTime, startTime, clock).value, power, endTime - startTime) >= 0.0
    ensures IntervalCost(m, firstTime, startTime, endTime, power, clock)
         == Ok(SlotCost(QuotedPrice(m, firstTime, startTime, clock).value, power, endTime - startTime) / 1000.0 / 3600.0)
  {
    var split := HourSplit(SecondsToFullHour(clock), endTime - startTime);
    assert split == [endTime - startTime];
    if m.Hourly? || m.HourlyStock? {
      var first := if m.Hourly? then clock.hour else Bucket(firstTime.value, startTime);
      var keys := SlotKeys(first, 1, m.Hourly?);
      assert keys[..0] == [] && split[..0] == [];
      assert keys[0] == first;
      ChargeStep(m.price, keys, split, power, 0, 0.0);
      assert keys[..1] == keys && split[..1] == split;
    }
  }

  /** An hourly table with one price for all 24 hours charges what the fixed
      model charges at that price. */
  lemma FlatHourlyIsFixed(price: map<int, real>, p: real, firstTime: Option<int>, startTime: int, endTime: int,
                          power: real, clock: Clock)
    requires forall h | 0 <= h < 24 :: h in price && price[h] == p
    requires p >= 0.0 && power >= 0.0 && endTime >= startTime
    ensures IntervalCost(Hourly(price), firstTime, startTime, endTime, power, clock)
         == Ok(SlotCost(p, power, endTime - startTime) / 1000.0 / 3600.0)
  {
    var tSec := SecondsToFullHour(clock);
    var split := HourSplit(tSec, endTime - startTime);
    var keys := SlotKeys(clock.hour, |split|, true);
    HourSplitCovers(tSec, endTime - startTime);
    forall i | 0 <= i < |keys|
      ensures keys[i] in price && price[keys[i]] == p
    {
      assert 0 <= keys[i] < 24;
    }
    ChargeConstant(price, keys, split, power, p);
    SlotCostNonNegative(p, power, endTime - startTime);
  }

  /** The day/night table: the day price from hour 6 up to hour 22, the
      night price in the other hours. */
  method DayNightTable() returns (price: map<int, real>)
    ensures (forall h :: h in price <==> 0 <= h < 24)
    ensures forall h | 0 <= h < 24 :: price[h] == (if DayStarts <= h < DayEnds then DayPricePerKWh else NightPricePerKWh)
  {
    price := map[];
    for i := 0 to 24
      invariant (forall h :: h in price <==> 0 <= h < i)
      invariant forall h | 0 <= h < i :: price[h] == NightPricePerKWh
    {
      price := price[i := NightPricePerKWh];
    }
    for i := DayStarts to DayEnds
      invariant (forall h :: h in price <==> 0 <= h < 24)
      invariant forall h | 0 <= h < 24 ::
        price[h] == (if DayStarts <= h < i then DayPricePerKWh else NightPricePerKWh)
    {
      price := price[i := DayPricePerKWh];
    }
  }

  /** Under the day/night table no interval of non-negative length and power
      fails or costs less than nothing. */
  lemma DayNightCostNonNegative(price: map<int, real>, firstTime: Option<int>, startTime: int, endTime: int,
                                power: real, clock: Clock)
    requires (forall h :: h in price <==> 0 <= h < 24)
    requires forall h | 0 <= h < 24 :: price[h] == (if DayStarts <= h < DayEnds then DayPricePerKWh else NightPricePerKWh)
    requires power >= 0.0 && endTime >= startTime
    ensures IntervalCost(Hourly(price), firstTime, startTime, endTime, power, clock).Ok?
    ensures IntervalCost(Hourly(price), firstTime, startTime, endTime, power, clock).value >= 0.0
  {
    var tSec := SecondsToFullHour(clock);
    var split := HourSplit(tSec, endTime - startTime);
    var keys := SlotKeys(clock.hour, |split|, true);
    DayNightSlots(price, clock.hour, tSec, endTime - startTime);
    ChargeNonNegative(price, keys, split, power);
  }

  /** Every slot of a day/night charge has a non-negative price and length. */
  lemma DayNightSlots(price: map<int, real>, hour: int, tSec: int, duration: int)
    requires (forall h :: h in price <==> 0 <= h < 24)
    requires forall h | 0 <= h < 24 :: price[h] == (if DayStarts <= h < DayEnds then DayPricePerKWh else NightPricePerKWh)
    requires 0 <= hour < 24 && 1 <= tSec <= 3600 && duration >= 0
    ensures var split := HourSplit(tSec, duration);
            var keys := SlotKeys(hour, |split|, true);
            forall i | 0 <= i < |keys| :: keys[i] in price && price[keys[i]] >= 0.0 && split[i] >= 0
  {
    var split := HourSplit(tSec, duration);
    var keys := SlotKeys(hour, |split|, true);
    HourSplitCovers(tSec, duration);
    forall i | 0 <= i < |keys|
      ensures keys[i] in price && price[keys[i]] >= 0.0 && split[i] >= 0
    {
      assert 0 <= keys[i] < 24;
    }
  }

  /** A price model together with the first event's timestamp, which the
      simulator records once before it processes any event. */
  class EnergyCostModel {
    const model: PriceModel
    var firstTime: Option<int>

    constructor (model: PriceModel)
      ensures this.model == model && firstTime == None
    {
      this.model := model;
      firstTime := None;
    }

    method InitTimestamp(startTime: int)
      modifies this
      ensures firstTime == Some(startTime)
    {
      firstTime := Some(startTime);
    }

    /** The price quoted for a timestamp: the base and fixed models never
        fail, and the table models quote only prices from their table. */
    function TimestampPrice(time: int, clock: Clock): (r: Result<real, PriceError>)
      reads this
      ensures r.Err? ==> model.Hourly? || model.HourlyStock?
      ensures r.Ok? ==>
        (model.Base? && r.value == 0.0) || (model.FixedPrice? && r.value == FixedPricePerKWh) ||
        ((model.Hourly? || model.HourlyStock?) && r.value in model.price.Values)
    {
      QuotedPrice(model, firstTime, time, clock)
    }

    /** The cost of an interval, computed as the models do: one slot up to
        the full hour, a loop over the whole hours, then the remainder. */
    method EnergyCosts(startTime: int, endTime: int, consumedEnergy: real, startDate: Clock)
      returns (r: Result<real, PriceError>)
      ensures r == IntervalCost(model, firstTime, startTime, endTime, consumedEnergy, startDate)
    {
      var tSec := SecondsToFullHour(startDate);
      match model
      case Base =>
        r := Ok(0.0);
      case FixedPrice =>
        r := Ok(SlotCost(FixedPricePerKWh, consumedEnergy, endTime - startTime) / 1000.0 / 3600.0);
      case Hourly(price) =>
        r := HourlyEnergyCosts(price, startTime, endTime, consumedEnergy, startDate, firstTime);
      case HourlyStock(price) =>
        r := StockEnergyCosts(price, firstTime, startTime, endTime, consumedEnergy, startDate);
    }
  }

  /** The hourly model's `energyCosts`, which ends by asserting that the
      charge is not negative; the hourly model has no first timestamp, so
      `firstTime` plays no part. */
  method HourlyEnergyCosts(price: map<int, real>, startTime: int, endTime: int, consumedEnergy: real,
                           startDate: Clock, ghost firstTime: Option<int>)
    returns (r: Result<real, PriceError>)
    ensures r == IntervalCost(Hourly(price), firstTime, startTime, endTime, consumedEnergy, startDate)
  {
    var tSec := SecondsToFullHour(startDate);
    var c := HourlyCharge(price, startDate.hour, true, tSec, endTime - startTime, consumedEnergy);
    match c {
      case Err(e) => r := Err(e);
      case Ok(costs) =>
        if costs < 0.0 { r := Err(AssertionFailed); } else { r := Ok(costs / 1000.0 / 3600.0); }
    }
  }

  /** The stock-price model's `energyCosts`: it asserts a non-negative power,
      needs the first timestamp for the bucket, and asserts a positive
      duration before it charges. */
  method StockEnergyCosts(price: map<int, real>, firstTime: Option<int>, startTime: int, endTime: int,
                          consumedEnergy: real, startDate: Clock)
    returns (r: Result<real, PriceError>)
    ensures r == IntervalCost(HourlyStock(price), firstTime, startTime, endTime, consumedEnergy, startDate)
  {
    var tSec := SecondsToFullHour(startDate);
    if consumedEnergy < 0.0 { return Err(AssertionFailed); }
    if firstTime.None? { return Err(NoFirstTimestamp); }
    var timestamp := Bucket(firstTime.value, startTime);
    var duration := endTime - startTime;
    if duration <= 0 { return Err(AssertionFailed); }
    var c := HourlyCharge(price, timestamp, false, tSec, duration, consumedEnergy);
    match c
    case Err(e) => r := Err(e);
    case Ok(costs) => r := Ok(costs / 1000.0 / 3600.0);
  }

  /** The hour-by-hour charging loop shared by the two hourly models, before
      the final division into kilowatt-hours. */
  method HourlyCharge(price: map<int, real>, first: int, wrap: bool, tSec: int, duration: int, power: real)
    returns (r: Result<real, PriceError>)
    requires wrap ==> 0 <= first < 24
    ensures var split := HourSplit(tSec, duration);
            r == Charge(price, SlotKeys(first, |split|, wrap), split, power)
  {
    ghost var split := HourSplit(tSec, duration);
    ghost var keys := SlotKeys(first, |split|, wrap);
    if tSec < duration {
      var rest := duration - tSec;
      var head, curHour := FullHours(price, first, wrap, tSec, duration, power);
      ghost var n := rest / 3600 + 1;
      assert n == |keys| - 1;
      if head.Err? {
        return head;
      }
      NextSlotKey(first, rest / 3600, wrap);
      curHour := NextKey(curHour, wrap);
      assert curHour == keys[n] && split[n] == rest % 3600;
      if curHour !in price {
        return Err(KeyError(curHour));
      }
      r := Ok(head.value + SlotCost(price[curHour], power, rest % 3600));
    } else {
      assert split == [duration];
      if first !in price {
        ChargeFirstMissing(price, keys, split, power, 0, 1);
        assert keys[..1] == keys && split[..1] == split;
        r := Err(KeyError(first));
      } else {
        ChargeStep(price, keys, split, power, 0, 0.0);
        assert keys[..1] == keys && split[..1] == split;
        r := Ok(SlotCost(price[first], power, duration));
      }
    }
  }

  /** The slots of an interval that runs past the first full hour: the
      first slot, the whole hours, and the keys the slots are charged at. */
  lemma SlotsOf(first: int, wrap: bool, tSec: int, duration: int)
    requires wrap ==> 0 <= first < 24
    requires tSec < duration
    ensures var split := HourSplit(tSec, duration);
            var keys := SlotKeys(first, |split|, wrap);
            |keys| == |split| == (duration - tSec) / 3600 + 2 && keys[0] == first && split[0] == tSec &&
            (forall i | 0 < i <= (duration - tSec) / 3600 :: split[i] == 3600) &&
            (forall i | 0 <= i < |keys| :: keys[i] == SlotKey(first, i, wrap))
  {
    var split := HourSplit(tSec, duration);
    var rest := duration - tSec;
    forall i | 0 < i <= rest / 3600
      ensures split[i] == 3600
    {
      assert split[i] == seq(rest / 3600, _ => 3600)[i - 1];
    }
  }

  /** The first slot and the full hours of the charging loop: the charge of
      every slot but the last, and the key of the last full hour. */
  method FullHours(price: map<int, real>, first: int, wrap: bool, tSec: int, duration: int, power: real)
    returns (r: Result<real, PriceError>, curHour: int)
    requires wrap ==> 0 <= first < 24
    requires tSec < duration
    ensures var split := HourSplit(tSec, duration);
            var keys := SlotKeys(first, |split|, wrap);
            r == Charge(price, keys[..|keys| - 1], split[..|keys| - 1], power)
    ensures r.Ok? ==> curHour == SlotKey(first, (duration - tSec) / 3600, wrap)
  {
    ghost var split := HourSplit(tSec, duration);
    ghost var keys := SlotKeys(first, |split|, wrap);
    var rest := duration - tSec;
    var durationHours := rest / 3600;
    ghost var n := durationHours + 1;
    SlotsOf(first, wrap, tSec, duration);
    assert keys[..0] == [] && split[..0] == [];
    curHour := first;
    if curHour !in price {
      ChargeFirstMissing(price, keys, split, power, 0, n);
      return Err(KeyError(curHour)), curHour;
    }
    var costs := SlotCost(price[curHour], power, tSec);
    ChargeStep(price, keys, split, power, 0, 0.0);
    r, curHour := WholeHours(price, first, wrap, durationHours, power, costs, keys, split);
  }

  /** The loop over the whole hours that follow the first slot, whose charge
      is `costs`; `keys` and `split` are the slots of the interval. */
  method WholeHours(price: map<int, real>, first: int, wrap: bool, durationHours: nat, power: real, costs: real,
                    ghost keys: seq<int>, ghost split: seq<int>)
    returns (r: Result<real, PriceError>, curHour: int)
    requires wrap ==> 0 <= first < 24
    requires |keys| == |split| == durationHours + 2
    requires forall i | 0 <= i < |keys| :: keys[i] == SlotKey(first, i, wrap)
    requires forall i | 0 < i <= durationHours :: split[i] == 3600
    requires Charge(price, keys[..1], split[..1], power) == Ok(costs)
    ensures r == Charge(price, keys[..durationHours + 1], split[..durationHours + 1], power)
    ensures r.Ok? ==> curHour == SlotKey(first, durationHours, wrap)
  {
    var acc := costs;
    curHour := first;
    var i := 0;
    while i < durationHours
      invariant 0 <= i <= durationHours
      invariant curHour == SlotKey(first, i, wrap)
      invariant Charge(price, keys[..i + 1], split[..i + 1], power) == Ok(acc)
    {
      NextSlotKey(first, i, wrap);
      curHour := NextKey(curHour, wrap);
      assert curHour == keys[i + 1];
      if curHour !in price {
        ChargeFirstMissing(price, keys, split, power, i + 1, durationHours + 1);
        return Err(KeyError(curHour)), curHour;
      }
      ChargeStep(price, keys, split, power, i + 1, acc);
      acc := acc + SlotCost(price[curHour], power, 3600);
      i := i + 1;
    }
    r := Ok(acc);
  }


  datatype ModelChoice = FixedPriceChoice | DayNightPriceChoice | HourlyStockPriceChoice(filename: string)

  /** The factory: selects a model by name; "list" and every other name fail. */
  function CreateModel(name: string, arg: string): (r: Result<ModelChoice, string>)
    ensures r.Ok? <==> name in {"FixedPrice", "DayNightPrice", "HourlyStockPrice"}
    ensures r == Ok(FixedPriceChoice) <==> name == "FixedPrice"
    ensures r == Ok(DayNightPriceChoice) <==> name == "DayNightPrice"
    ensures r == Ok(HourlyStockPriceChoice(arg)) <==> name == "HourlyStockPrice"
    ensures r.Err? ==> r.error == "No valid model defined!"
  {
    if name == "FixedPrice" then Ok(FixedPriceChoice)
    else if name == "DayNightPrice" then Ok(DayNightPriceChoice)
    else if name == "HourlyStockPrice" then Ok(HourlyStockPriceChoice(arg))
    else Err("No valid model defined!")
  }
}
