/** Small shared vocabulary: optional values, results, sequence extremes
    and wall-clock readings. */
module Common {

  datatype Option<+T> = None | Some(value: T)

  datatype Result<+T, +E> = Ok(value: T) | Err(error: E)

  /** Python's `min` and `max` of a non-empty sequence. */
  function SeqMin(s: seq<int>): (m: int)
    requires s != []
    ensures m in s && forall x | x in s :: m <= x
  {
    if |s| == 1 then s[0]
    else var rest := SeqMin(s[1..]); assert s == [s[0]] + s[1..]; if s[0] <= rest then s[0] else rest
  }

  function SeqMax(s: seq<int>): (m: int)
    requires s != []
    ensures m in s && forall x | x in s :: x <= m
  {
    if |s| == 1 then s[0]
    else var rest := SeqMax(s[1..]); assert s == [s[0]] + s[1..]; if s[0] >= rest then s[0] else rest
  }

  /** The local wall-clock reading of a timestamp (hour, minute, second), as
      `datetime.fromtimestamp` gives it; it enters the model as an input. */
  datatype WallClock = WallClock(hour: int, minute: int, second: int)

  type Clock = c: WallClock | 0 <= c.hour < 24 && 0 <= c.minute < 60 && 0 <= c.second < 60
    witness WallClock(0, 0, 0)

  /** Seconds from the reading up to the next full hour, the reading's own
      second included: between 1 and 3600. */
  function SecondsToFullHour(c: Clock): (t: int)
    ensures 1 <= t <= 3600
    ensures c.minute == 0 && c.second == 0 <==> t == 3600
  {
    (59 - c.minute) * 60 + 60 - c.second
  }
}
