/** Field parsers and filters of the trace reader: integer fields with
    decimal suffixes, memory requests per core or per node, Slurm elapsed-time
    fields, the normalisation of job states, the per-row validity checks of
    the Slurm and LRZ readers, and the filter over a stored job list. */
module JobReader {
  import opened Common
  import opened Text
  import opened Jobs

  datatype ParseError =
    | ValueError   // a numeral that `int` or `float` rejects
    | TypeError    // `int(None)` on a regex group that did not take part in the match

  /** The scale of each decimal suffix of an integer field. */
  function SuffixScale(c: char): real
  {
    match c
    case 'K' => 1000.0
    case 'M' => 1000.0 * 1000.0
    case 'G' => 1000.0 * 1000.0 * 1000.0
    case 'T' => 1000.0 * 1000.0 * 1000.0 * 1000.0
    case _ => 1.0
  }

  predicate IsScaleSuffix(c: char) { c == 'K' || c == 'M' || c == 'G' || c == 'T' }

  /** An integer field: missing or empty is -1, a K/M/G/T suffix scales the
      decimal numeral before it (truncated toward zero), anything else must
      be an integer numeral. */
  function ParseIntVal(val: Option<string>): (r: Result<int, ParseError>)
    ensures val == None || val == Some("") ==> r == Ok(-1)
  {
    if val == None || val == Some("") then Ok(-1)
    else
      var s := val.value;
      var last := s[|s| - 1];
      if IsScaleSuffix(last) then
        match ParseFloat(DropLast(s, 1))
        case None => Err(ValueError)
        case Some(x) => Ok(ScaleToInt(x, SuffixScale(last)))
      else
        match ParseInt(s)
        case None => Err(ValueError)
        case Some(n) => Ok(n)
  }

  /** A plain numeral is read as its value. */
  lemma ParseIntValPlain(n: nat)
    ensures ParseIntVal(Some(NatToDigits(n))) == Ok(n)
  {
    var s := NatToDigits(n);
    assert !IsScaleSuffix(s[|s| - 1]) by { assert IsDigit(s[|s| - 1]); }
    ParseDigits(n);
    assert ParseIntVal(Some(s)) == (match ParseInt(s) case None => Err(ValueError) case Some(m) => Ok(m));
  }

  /** A numeral followed by K, M, G or T is scaled by 10^3, 10^6, 10^9 or
      10^12. */
  lemma ParseIntValScaled(n: nat, c: char)
    requires IsScaleSuffix(c)
    ensures ParseIntVal(Some(NatToDigits(n) + [c]))
         == Ok(n * (if c == 'K' then 1000 else if c == 'M' then 1000000
                   else if c == 'G' then 1000000000 else 1000000000000))
  {
    var s := NatToDigits(n) + [c];
    assert DropLast(s, 1) == NatToDigits(n);
    ParseDigits(n);
    var k := if c == 'K' then 1000 else if c == 'M' then 1000000 else if c == 'G' then 1000000000 else 1000000000000;
    assert SuffixScale(c) == k as real;
    ScaledNumeral(n as real, SuffixScale(c), n, k);
  }

  /** `int(x * f)`: the scaled value truncated toward zero. */
  function ScaleToInt(x: real, f: real): int
  {
    TruncToInt(x * f)
  }

  lemma ScaledNumeral(x: real, f: real, n: nat, k: int)
    requires x == n as real && f == k as real
    ensures ScaleToInt(x, f) == n * k
  {
    assert (n as real) * (k as real) == (n * k) as real;
  }

  /** Bytes per unit of a memory request: MiB or GiB, times the tasks per
      node for a per-core request. */
  function MemoryFactor(mem: string, ppn: int): real
    requires |mem| >= 2
  {
    var unit: real := if mem[|mem| - 2] == 'M' then 1024.0 * 1024.0 else 1024.0 * 1024.0 * 1024.0;
    if mem[|mem| - 1] == 'c' then unit * ppn as real else unit
  }

  /** A memory request: Mc and Gc are per core (times the tasks per node),
      Mn and Gn per node, in bytes; any other form gives -1. */
  function ParseNodeMemory(mem: string, ppn: int): (r: Result<int, ParseError>)
    ensures !(EndsWith(mem, "Mc") || EndsWith(mem, "Gc") || EndsWith(mem, "Mn") || EndsWith(mem, "Gn"))
            ==> r == Ok(-1)
  {
    EndsWithPair(mem, 'M', 'c');
    EndsWithPair(mem, 'G', 'c');
    EndsWithPair(mem, 'M', 'n');
    EndsWithPair(mem, 'G', 'n');
    if |mem| < 2 || !(mem[|mem| - 1] == 'c' || mem[|mem| - 1] == 'n') || !(mem[|mem| - 2] == 'M' || mem[|mem| - 2] == 'G') then
      Ok(-1)
    else
      match ParseFloat(DropLast(mem, 2))
      case None => Err(ValueError)
      case Some(x) => Ok(ScaleToInt(x, MemoryFactor(mem, ppn)))
  }

  lemma EndsWithPair(s: string, a: char, b: char)
    ensures EndsWith(s, [a, b]) <==> |s| >= 2 && s[|s| - 2] == a && s[|s| - 1] == b
  {
    if |s| >= 2 && s[|s| - 2] == a && s[|s| - 1] == b {
      assert s[|s| - 2..] == [a, b];
    }
  }

  /** Per-core requests are scaled by the tasks per node, per-node requests
      are not. */
  lemma ParseNodeMemoryScaled(n: nat, unit: char, per: char, ppn: nat)
    requires unit == 'M' || unit == 'G'
    requires per == 'c' || per == 'n'
    ensures ParseNodeMemory(NatToDigits(n) + [unit, per], ppn)
         == Ok(n * ((if unit == 'M' then 1048576 else 1073741824) * (if per == 'c' then ppn else 1)))
  {
    var s := NatToDigits(n) + [unit, per];
    assert DropLast(s, 2) == NatToDigits(n);
    assert s[|s| - 2] == unit && s[|s| - 1] == per;
    ParseDigits(n);
    var u := if unit == 'M' then 1048576 else 1073741824;
    var p := if per == 'c' then ppn else 1;
    assert MemoryFactor(s, ppn) == (u * p) as real by {
      if per == 'c' { assert (u as real) * (ppn as real) == (u * ppn) as real; }
    }
    assert ParseFloat(DropLast(s, 2)) == Some(n as real);
    ScaledNumeral(n as real, MemoryFactor(s, ppn), n, u * p);
    var r := ParseNodeMemory(s, ppn);
    assert r == Ok(r.value);
    assert r.value == n * (u * p);
  }

  // ---------------------------------------------------------------------
  // Slurm elapsed-time fields

  /** A field is a time span in seconds or one of two special words, which
      are passed on unchanged. */
  datatype SlurmTime = Unlimited | PartitionLimit | Seconds(seconds: int)

  /** The groups of a match of `[day]` `-?` `hour:min:sec`. */
  datatype ElapsedMatch = ElapsedMatch(day: Option<string>, hour: string, minute: string, second: string)

  /** Length of the longest run of decimal digits in `s` from position `p`. */
  function DigitRun(s: string, p: nat): (n: nat)
    requires p <= |s|
    ensures p + n <= |s|
    ensures p + n < |s| ==> !IsDigit(s[p + n])
    decreases |s| - p
  {
    if p < |s| && IsDigit(s[p]) then 1 + DigitRun(s, p + 1) else 0
  }

  /** Everything a run covers is a digit. */
  lemma {:induction false} DigitRunDigits(s: string, p: nat, i: nat)
    requires p <= |s| && p <= i < p + DigitRun(s, p)
    ensures IsDigit(s[i])
    decreases i - p
  {
    if i > p {
      DigitRunDigits(s, p + 1, i);
    }
  }

  lemma RunIsDigits(s: string, p: nat, k: nat)
    requires p <= |s| && k <= DigitRun(s, p)
    ensures IsDigits(s[p..p + k])
  {
    var t := s[p..p + k];
    forall j | 0 <= j < |t|
      ensures IsDigit(t[j])
    {
      DigitRunDigits(s, p, p + j);
    }
  }

  /** Python's `$`: the end of the string, or a final newline. */
  predicate AtEnd(s: string, p: nat)
  {
    p == |s| || (p == |s| - 1 && s[p] == '\n')
  }

  /** The part after the hour: `:min:sec` then the end.  Each digit group is
      followed by a non-digit, so only its longest run can succeed and the
      match is determined. */
  function MatchMinSec(s: string, p: nat): Option<(string, string)>
    requires p <= |s|
  {
    if p < |s| && s[p] == ':' then
      var m := DigitRun(s, p + 1);
      var q := p + 1 + m;
      if m > 0 && q < |s| && s[q] == ':' then
        var k := DigitRun(s, q + 1);
        if k > 0 && AtEnd(s, q + 1 + k) then Some((s[p + 1..q], s[q + 1..q + 1 + k])) else None
      else None
    else None
  }

  /** The hour group starting at `p`, then the rest. */
  function MatchHour(s: string, day: Option<string>, p: nat): Option<ElapsedMatch>
    requires p <= |s|
  {
    var h := DigitRun(s, p);
    if h == 0 then None
    else
      var rest := MatchMinSec(s, p + h);
      if rest.None? then None else Some(ElapsedMatch(day, s[p..p + h], rest.value.0, rest.value.1))
  }

  /** One backtracking alternative: a day group of `len` digits (0 means the
      optional group is skipped), then the optional '-' tried present before
      absent. */
  function MatchWithDay(s: string, len: nat): Option<ElapsedMatch>
    requires len <= |s|
  {
    var day := if len == 0 then None else Some(s[..len]);
    var withDash := if len < |s| && s[len] == '-' then MatchHour(s, day, len + 1) else None;
    if withDash.Some? then withDash else MatchHour(s, day, len)
  }

  /** The regex engine's search order: the greedy day group from its longest
      run down to one digit, then without the day group. */
  function MatchFrom(s: string, len: nat): Option<ElapsedMatch>
    requires len <= |s|
    decreases len
  {
    var m := MatchWithDay(s, len);
    if m.Some? || len == 0 then m else MatchFrom(s, len - 1)
  }

  function MatchElapsed(s: string): Option<ElapsedMatch>
  {
    MatchFrom(s, DigitRun(s, 0))
  }

  /** An elapsed-time or time-limit field. */
  function ParseSlurmDuration(time: string): (r: Result<SlurmTime, ParseError>)
    ensures time == "UNLIMITED" ==> r == Ok(Unlimited)
    ensures time == "Partition_Limit" ==> r == Ok(PartitionLimit)
    ensures time != "UNLIMITED" && time != "Partition_Limit" && !ElapsedForm(time) ==> r == Ok(Seconds(-1))
    ensures time != "UNLIMITED" && time != "Partition_Limit" && ElapsedForm(time) && NoDayGroup(time)
      ==> r == Err(TypeError)
    ensures time != "UNLIMITED" && time != "Partition_Limit" && ElapsedForm(time) && !NoDayGroup(time)
      ==> r.Ok? && r.value.Seconds? && r.value.seconds >= 0
  {
    if time == "UNLIMITED" then Ok(Unlimited)
    else if time == "Partition_Limit" then Ok(PartitionLimit)
    else
      var m := MatchElapsed(time);
      ElapsedFormMatches(time);
      if m.None? then Ok(Seconds(-1))
      else
        MatchDigits(time);
        MatchedDay(time);
        MatchedSeconds(m.value)
  }

  /** The seconds a match denotes; reading an unmatched day group fails. */
  function MatchedSeconds(m: ElapsedMatch): Result<SlurmTime, ParseError>
    requires GroupsDigits(m)
  {
    if m.day.None? then Err(TypeError)
    else Ok(Seconds(SpanSeconds(DigitsValue(m.day.value), DigitsValue(m.hour), DigitsValue(m.minute),
                                DigitsValue(m.second))))
  }

  /** Days, hours, minutes and seconds as seconds. */
  function SpanSeconds(d: int, h: int, m: int, s: int): int
  {
    ((d * 24 + h) * 60 + m) * 60 + s
  }

  /** Every group of the match consists of digits. */
  predicate GroupsDigits(m: ElapsedMatch)
  {
    (m.day.Some? ==> IsDigits(m.day.value)) && IsDigits(m.hour) && IsDigits(m.minute) && IsDigits(m.second)
  }

  lemma MatchDigits(s: string)
    ensures MatchElapsed(s).Some? ==> GroupsDigits(MatchElapsed(s).value)
  {
    MatchFromDigits(s, DigitRun(s, 0));
  }

  lemma MinSecDigits(s: string, p: nat)
    requires p <= |s|
    ensures MatchMinSec(s, p).Some? ==> IsDigits(MatchMinSec(s, p).value.0) && IsDigits(MatchMinSec(s, p).value.1)
  {
    if MatchMinSec(s, p).Some? {
      var q := p + 1 + DigitRun(s, p + 1);
      RunIsDigits(s, p + 1, DigitRun(s, p + 1));
      RunIsDigits(s, q + 1, DigitRun(s, q + 1));
    }
  }

  lemma MatchHourDigits(s: string, day: Option<string>, p: nat)
    requires p <= |s| && (day.Some? ==> IsDigits(day.value))
    ensures MatchHour(s, day, p).Some? ==> GroupsDigits(MatchHour(s, day, p).value)
  {
    var h := DigitRun(s, p);
    RunIsDigits(s, p, h);
    if h > 0 {
      MinSecDigits(s, p + h);
    }
  }

  lemma {:induction false} MatchFromDigits(s: string, len: nat)
    requires len <= DigitRun(s, 0)
    ensures MatchFrom(s, len).Some? ==> GroupsDigits(MatchFrom(s, len).value)
    decreases len
  {
    MatchWithDayDigits(s, len);
    if MatchWithDay(s, len).None? && len > 0 {
      MatchFromDigits(s, len - 1);
    }
  }

  lemma MatchWithDayDigits(s: string, len: nat)
    requires len <= DigitRun(s, 0)
    ensures MatchWithDay(s, len).Some? ==> GroupsDigits(MatchWithDay(s, len).value)
  {
    assert IsDigits(s[..len]) by { assert s[..len] == s[0..len]; RunIsDigits(s, 0, len); }
    var day := if len == 0 then None else Some(s[..len]);
    if len < |s| && s[len] == '-' && MatchHour(s, day, len + 1).Some? {
      MatchHourDigits(s, day, len + 1);
      assert MatchWithDay(s, len) == MatchHour(s, day, len + 1);
    } else {
      MatchHourDigits(s, day, len);
      assert MatchWithDay(s, len) == MatchHour(s, day, len);
    }
  }

  /** Positions `i` up to `j` of `s` hold decimal digits. */
  predicate DigitsBetween(s: string, i: nat, j: nat)
  {
    i <= j <= |s| && forall k | i <= k < j :: IsDigit(s[k])
  }

  lemma SliceDigits(s: string, i: nat, j: nat)
    requires i <= j <= |s| && IsDigits(s[i..j])
    ensures DigitsBetween(s, i, j)
  {
    forall k | i <= k < j
      ensures IsDigit(s[k])
    {
      assert s[k] == s[i..j][k - i];
    }
  }

  /** Digits from `p` up to a non-digit (or the end) at `i` form the run. */
  lemma {:induction false} DigitRunAt(s: string, p: nat, i: nat)
    requires DigitsBetween(s, p, i) && (i < |s| ==> !IsDigit(s[i]))
    ensures DigitRun(s, p) == i - p
    decreases i - p
  {
    if p < i {
      DigitRunAt(s, p + 1, i);
    }
  }

  /** The shape `hour:min:sec` that runs from `p` to the end of `s`, with
      the two colons at `i` and `j`. */
  predicate TimeAt(s: string, p: nat, i: nat, j: nat)
  {
    p < i && i + 1 < j && j + 1 < |s| &&
    DigitsBetween(s, p, i) && s[i] == ':' && DigitsBetween(s, i + 1, j) && s[j] == ':' &&
    DigitsBetween(s, j + 1, |s|)
  }

  /** The minutes-and-seconds tail matches with the groups between the
      colons. */
  lemma MinSecAt(s: string, i: nat, j: nat)
    requires i + 1 < j && j + 1 < |s| && s[i] == ':' && DigitsBetween(s, i + 1, j) && s[j] == ':'
    requires DigitsBetween(s, j + 1, |s|)
    ensures MatchMinSec(s, i) == Some((s[i + 1..j], s[j + 1..]))
  {
    DigitRunAt(s, i + 1, j);
    DigitRunAt(s, j + 1, |s|);
    assert AtEnd(s, |s|);
    assert s[j + 1..|s|] == s[j + 1..];
  }

  /** An hour group in a well-formed shape matches with its three groups. */
  lemma HourAt(s: string, day: Option<string>, p: nat, i: nat, j: nat)
    requires TimeAt(s, p, i, j)
    ensures MatchHour(s, day, p) == Some(ElapsedMatch(day, s[p..i], s[i + 1..j], s[j + 1..]))
  {
    DigitRunAt(s, p, i);
    MinSecAt(s, i, j);
  }

  /** Where the groups of `pre + h:mi:se` lie. */
  lemma Layout(pre: string, h: string, mi: string, se: string)
    ensures var s := pre + h + ":" + mi + ":" + se;
            var i := |pre| + |h|;
            var j := i + 1 + |mi|;
            |s| == j + 1 + |se| && s[..|pre|] == pre && s[|pre|..i] == h && s[i] == ':' &&
            s[i + 1..j] == mi && s[j] == ':' && s[j + 1..] == se
  {
    var a1 := pre + h;
    var a2 := a1 + ":";
    var a3 := a2 + mi;
    var a4 := a3 + ":";
    var s := a4 + se;
    var i := |pre| + |h|;
    var j := i + 1 + |mi|;
    assert s[..|a4|] == a4;
    assert s[j] == a4[j];
    assert s[i + 1..j] == a4[i + 1..j] == a3[i + 1..j];
    assert s[i] == a3[i] == a2[i];
    assert s[|pre|..i] == a3[|pre|..i] == a1[|pre|..i];
    assert s[..|pre|] == a1[..|pre|];
  }

  /** A field other than the two special words is worth what its match
      denotes. */
  lemma DurationOfMatch(s: string, m: ElapsedMatch)
    requires s != [] && IsDigit(s[0]) && MatchElapsed(s) == Some(m)
    ensures GroupsDigits(m)
    ensures ParseSlurmDuration(s) == MatchedSeconds(m)
  {
    MatchDigits(s);
    assert s != "UNLIMITED" && s != "Partition_Limit" by { assert !IsDigit("UNLIMITED"[0]) && !IsDigit("Partition_Limit"[0]); }
  }

  /** The documented form D-H:M:S keeps its groups apart. */
  lemma SlurmDayForm(d: string, h: string, mi: string, se: string)
    requires IsDigits(d) && IsDigits(h) && IsDigits(mi) && IsDigits(se)
    requires d != [] && h != [] && mi != [] && se != []
    ensures ParseSlurmDuration(d + "-" + h + ":" + mi + ":" + se)
         == Ok(Seconds(SpanSeconds(DigitsValue(d), DigitsValue(h), DigitsValue(mi), DigitsValue(se))))
  {
    DayFormOf(d + "-" + h + ":" + mi + ":" + se, d, h, mi, se);
  }

  lemma DayFormOf(s: string, d: string, h: string, mi: string, se: string)
    requires IsDigits(d) && IsDigits(h) && IsDigits(mi) && IsDigits(se)
    requires d != [] && h != [] && mi != [] && se != []
    requires s == d + "-" + h + ":" + mi + ":" + se
    ensures ParseSlurmDuration(s)
         == Ok(Seconds(SpanSeconds(DigitsValue(d), DigitsValue(h), DigitsValue(mi), DigitsValue(se))))
  {
    var n := |d|;
    var i := n + 1 + |h|;
    var j := i + 1 + |mi|;
    DayLayout(s, d, h, mi, se, n, i, j);
    DayMatch(s, n, i, j);
    var m := ElapsedMatch(Some(d), h, mi, se);
    assert MatchElapsed(s) == Some(m);
    DurationOfMatch(s, m);
    DayMatchSeconds(ParseSlurmDuration(s), d, h, mi, se);
  }

  /** A day run followed by '-' and a well-formed time is matched with its
      four groups. */
  lemma DayMatch(s: string, n: nat, i: nat, j: nat)
    requires 0 < n < |s| && s[n] == '-' && DigitsBetween(s, 0, n) && TimeAt(s, n + 1, i, j)
    ensures IsDigit(s[0]) && MatchElapsed(s) == Some(ElapsedMatch(Some(s[..n]), s[n + 1..i], s[i + 1..j], s[j + 1..]))
  {
    HourAt(s, Some(s[..n]), n + 1, i, j);
    DigitRunAt(s, 0, n);
    DashMatch(s, n, ElapsedMatch(Some(s[..n]), s[n + 1..i], s[i + 1..j], s[j + 1..]));
  }

  /** Where the groups of `d-h:mi:se` lie, and that they are digits. */
  lemma DayLayout(s: string, d: string, h: string, mi: string, se: string, n: nat, i: nat, j: nat)
    requires IsDigits(d) && IsDigits(h) && IsDigits(mi) && IsDigits(se)
    requires d != [] && h != [] && mi != [] && se != []
    requires s == d + "-" + h + ":" + mi + ":" + se
    requires n == |d| && i == n + 1 + |h| && j == i + 1 + |mi|
    ensures 0 < n < |s| && s[..n] == d && s[n] == '-' && s[n + 1..i] == h && s[i + 1..j] == mi && s[j + 1..] == se
    ensures DigitsBetween(s, 0, n) && TimeAt(s, n + 1, i, j)
  {
    assert s[..n] == d && s[n] == '-' && s[n + 1..i] == h && s[i] == ':' && s[i + 1..j] == mi && s[j] == ':'
           && s[j + 1..] == se && |s| == j + 1 + |se| by {
      Layout(d + "-", h, mi, se);
      assert (d + "-")[..n] == d;
    }
    SliceDigits(s, 0, n);
    SliceDigits(s, n + 1, i);
    SliceDigits(s, i + 1, j);
    SliceDigits(s, j + 1, |s|);
  }

  lemma DayMatchSeconds(r: Result<SlurmTime, ParseError>, d: string, h: string, mi: string, se: string)
    requires IsDigits(d) && IsDigits(h) && IsDigits(mi) && IsDigits(se)
    requires r == MatchedSeconds(ElapsedMatch(Some(d), h, mi, se))
    ensures r == Ok(Seconds(SpanSeconds(DigitsValue(d), DigitsValue(h), DigitsValue(mi), DigitsValue(se))))
  {
  }

  /** A full day run followed by '-' and an hour match is the first
      alternative the search tries. */
  lemma DashMatch(s: string, n: nat, m: ElapsedMatch)
    requires n < |s| && s[n] == '-' && DigitRun(s, 0) == n && n > 0
    requires MatchHour(s, Some(s[..n]), n + 1) == Some(m)
    ensures MatchElapsed(s) == Some(m)
  {
    assert MatchWithDay(s, n) == Some(m);
  }

  /** Without a day prefix the greedy day group backtracks by one digit:
      all hour digits but the last are read as days, the last as the hour. */
  lemma SlurmNoDayForm(h: string, mi: string, se: string)
    requires IsDigits(h) && IsDigits(mi) && IsDigits(se)
    requires |h| >= 2 && mi != [] && se != []
    ensures ParseSlurmDuration(h + ":" + mi + ":" + se)
         == Ok(Seconds(SpanSeconds(DigitsValue(h[..|h| - 1]), DigitValue(h[|h| - 1]), DigitsValue(mi),
                                   DigitsValue(se))))
  {
    var last := [h[|h| - 1]];
    NoDayFormOf(h + ":" + mi + ":" + se, h, mi, se);
    assert DigitsValue(last) == DigitValue(h[|h| - 1]) by { assert last[..0] == []; }
  }

  lemma NoDayFormOf(s: string, h: string, mi: string, se: string)
    requires IsDigits(h) && IsDigits(mi) && IsDigits(se)
    requires h != [] && mi != [] && se != []
    requires s == h + ":" + mi + ":" + se
    ensures ParseSlurmDuration(s)
         == MatchedSeconds(ElapsedMatch(if |h| == 1 then None else Some(h[..|h| - 1]), [h[|h| - 1]], mi, se))
  {
    var n := |h|;
    var j := n + 1 + |mi|;
    assert s[..n] == h && s[n] == ':' && s[n + 1..j] == mi && s[j] == ':' && s[j + 1..] == se
           && |s| == j + 1 + |se| by {
      Layout([], h, mi, se);
      assert [] + h == h;
    }
    assert DigitsBetween(s, 0, n) && TimeAt(s, n - 1, n, j) by {
      SliceDigits(s, 0, n);
      SliceDigits(s, n + 1, j);
      SliceDigits(s, j + 1, |s|);
    }
    assert s[..n - 1] == h[..n - 1] && s[n - 1..n] == [h[n - 1]];
    var m := ElapsedMatch(if n == 1 then None else Some(h[..n - 1]), [h[n - 1]], mi, se);
    HourAt(s, m.day, n - 1, n, j);
    DigitRunAt(s, 0, n);
    BacktrackOne(s, n, m);
    DurationOfMatch(s, m);
  }

  /** When the full day run is followed by ':' the search gives up one
      digit of the day group and lets it be the hour. */
  lemma BacktrackOne(s: string, n: nat, m: ElapsedMatch)
    requires 0 < n < |s| && s[n] == ':' && DigitRun(s, 0) == n
    requires MatchHour(s, if n == 1 then None else Some(s[..n - 1]), n - 1) == Some(m)
    ensures MatchElapsed(s) == Some(m)
  {
    assert DigitRun(s, n) == 0;
    assert MatchWithDay(s, n) == None;
    assert IsDigit(s[n - 1]) by { DigitRunDigits(s, 0, n - 1); }
    assert MatchWithDay(s, n - 1) == Some(m);
    assert MatchFrom(s, n - 1) == Some(m);
  }

  /** A single hour digit without a day leaves the day group unmatched, and
      reading it fails. */
  lemma SlurmSingleDigitForm(c: char, mi: string, se: string)
    requires IsDigit(c) && IsDigits(mi) && IsDigits(se)
    requires mi != [] && se != []
    ensures ParseSlurmDuration([c] + ":" + mi + ":" + se) == Err(TypeError)
  {
    NoDayFormOf([c] + ":" + mi + ":" + se, [c], mi, se);
  }

  /** Positions `p` to `e` hold `hour:min:sec`, with the colons at `i` and
      `j`, and `$` matches at `e`. */
  predicate TimeTo(s: string, p: nat, i: nat, j: nat, e: nat)
  {
    p < i && i + 1 < j && j + 1 < e && AtEnd(s, e) &&
    DigitsBetween(s, p, i) && s[i] == ':' && DigitsBetween(s, i + 1, j) && s[j] == ':' &&
    DigitsBetween(s, j + 1, e)
  }

  /** What precedes the hour group at `p`: digits, optionally followed by
      one '-'. */
  predicate DayPart(s: string, p: nat)
  {
    DigitsBetween(s, 0, p) || (0 < p <= |s| && s[p - 1] == '-' && DigitsBetween(s, 0, p - 1))
  }

  /** The fields `^([0-9]+)?-?([0-9]+):([0-9]+):([0-9]+)$` matches. */
  ghost predicate ElapsedForm(s: string)
  {
    exists p: nat, i: nat, j: nat, e: nat :: TimeTo(s, p, i, j, e) && DayPart(s, p)
  }

  /** The day group is left unmatched: the field starts with '-', or with a
      single hour digit and ':'. */
  predicate NoDayGroup(s: string)
  {
    StartsWith(s, "-") || (|s| > 1 && IsDigit(s[0]) && s[1] == ':')
  }

  lemma RunBetween(s: string, p: nat)
    requires p <= |s|
    ensures DigitsBetween(s, p, p + DigitRun(s, p))
  {
    forall k | p <= k < p + DigitRun(s, p)
      ensures IsDigit(s[k])
    {
      DigitRunDigits(s, p, k);
    }
  }

  /** A minutes-and-seconds match lies between two colons and the end. */
  lemma MinSecShape(s: string, i: nat) returns (j: nat, e: nat)
    requires i <= |s| && MatchMinSec(s, i).Some?
    ensures i + 1 < j && j + 1 < e && AtEnd(s, e) && s[i] == ':' && DigitsBetween(s, i + 1, j) &&
            s[j] == ':' && DigitsBetween(s, j + 1, e)
  {
    j := i + 1 + DigitRun(s, i + 1);
    e := j + 1 + DigitRun(s, j + 1);
    RunBetween(s, i + 1);
    RunBetween(s, j + 1);
  }

  /** An hour match has the shape of a time. */
  lemma HourShape(s: string, day: Option<string>, p: nat) returns (i: nat, j: nat, e: nat)
    requires p <= |s| && MatchHour(s, day, p).Some?
    ensures TimeTo(s, p, i, j, e)
  {
    i := p + DigitRun(s, p);
    RunBetween(s, p);
    j, e := MinSecShape(s, i);
  }

  /** A match of one alternative has its hour group behind a day part. */
  lemma WithDayShape(s: string, len: nat) returns (p: nat, i: nat, j: nat, e: nat)
    requires len <= DigitRun(s, 0) && MatchWithDay(s, len).Some?
    ensures TimeTo(s, p, i, j, e) && DayPart(s, p)
  {
    RunBetween(s, 0);
    assert DigitsBetween(s, 0, len);
    var day := if len == 0 then None else Some(s[..len]);
    if len < |s| && s[len] == '-' && MatchHour(s, day, len + 1).Some? {
      p := len + 1;
    } else {
      p := len;
    }
    i, j, e := HourShape(s, day, p);
  }

  lemma {:induction false} FromShape(s: string, len: nat) returns (p: nat, i: nat, j: nat, e: nat)
    requires len <= DigitRun(s, 0) && MatchFrom(s, len).Some?
    ensures TimeTo(s, p, i, j, e) && DayPart(s, p)
    decreases len
  {
    if MatchWithDay(s, len).Some? {
      p, i, j, e := WithDayShape(s, len);
    } else {
      p, i, j, e := FromShape(s, len - 1);
    }
  }

  /** A minutes-and-seconds shape is matched. */
  lemma MinSecTo(s: string, i: nat, j: nat, e: nat)
    requires i + 1 < j && j + 1 < e && AtEnd(s, e) && s[i] == ':' && DigitsBetween(s, i + 1, j)
    requires s[j] == ':' && DigitsBetween(s, j + 1, e)
    ensures MatchMinSec(s, i).Some?
  {
    DigitRunAt(s, i + 1, j);
    DigitRunAt(s, j + 1, e);
  }

  /** A time shape is matched from its hour group on, whatever the day. */
  lemma HourTo(s: string, day: Option<string>, p: nat, i: nat, j: nat, e: nat)
    requires TimeTo(s, p, i, j, e)
    ensures MatchHour(s, day, p).Some?
  {
    DigitRunAt(s, p, i);
    MinSecTo(s, i, j, e);
  }

  /** Every field of the form is matched. */
  lemma FormMatches(s: string, p: nat, i: nat, j: nat, e: nat)
    requires TimeTo(s, p, i, j, e) && DayPart(s, p)
    ensures MatchElapsed(s).Some?
  {
    if DigitsBetween(s, 0, p) {
      DigitsToHour(s, p, i, j, e);
    } else {
      DigitRunAt(s, 0, p - 1);
      var day := if p - 1 == 0 then None else Some(s[..p - 1]);
      HourTo(s, day, p, i, j, e);
      assert MatchWithDay(s, p - 1).Some?;
    }
  }

  /** Without a '-' the last digit before the first colon is the hour. */
  lemma DigitsToHour(s: string, p: nat, i: nat, j: nat, e: nat)
    requires TimeTo(s, p, i, j, e) && DigitsBetween(s, 0, p)
    ensures MatchElapsed(s).Some?
  {
    assert DigitsBetween(s, 0, i);
    DigitRunAt(s, 0, i);
    assert DigitRun(s, i) == 0;
    assert MatchWithDay(s, i) == None;
    var day := if i - 1 == 0 then None else Some(s[..i - 1]);
    assert TimeTo(s, i - 1, i, j, e);
    HourTo(s, day, i - 1, i, j, e);
    assert MatchWithDay(s, i - 1).Some?;
    assert MatchFrom(s, i) == MatchFrom(s, i - 1);
  }

  /** The search succeeds on exactly the fields of the form. */
  lemma ElapsedFormMatches(s: string)
    ensures MatchElapsed(s).Some? <==> ElapsedForm(s)
  {
    if MatchElapsed(s).Some? {
      var p, i, j, e := FromShape(s, DigitRun(s, 0));
      assert TimeTo(s, p, i, j, e) && DayPart(s, p);
    }
    if ElapsedForm(s) {
      var p: nat, i: nat, j: nat, e: nat :| TimeTo(s, p, i, j, e) && DayPart(s, p);
      FormMatches(s, p, i, j, e);
    }
  }

  /** Below the longest alternative tried with an hour, no shorter day
      group helps: the minutes-and-seconds tail is the same. */
  lemma {:induction false} ShortDaysFail(s: string, n: nat, len: nat)
    requires n == DigitRun(s, 0) && len < n && MatchMinSec(s, n).None?
    ensures MatchFrom(s, len).None?
    decreases len
  {
    RunBetween(s, 0);
    DigitRunAt(s, len, n);
    assert MatchWithDay(s, len) == None;
    if len > 0 {
      ShortDaysFail(s, n, len - 1);
    }
  }

  /** The day group of a match is unmatched exactly when the field starts
      with '-' or with one hour digit and ':'. */
  lemma MatchedDay(s: string)
    requires MatchElapsed(s).Some?
    ensures MatchElapsed(s).value.day.None? <==> NoDayGroup(s)
  {
    var n := DigitRun(s, 0);
    if n == 0 {
      DashWithoutDay(s);
    } else {
      RunBetween(s, 0);
      assert !StartsWith(s, "-") by { assert IsDigit(s[0]); }
      if MatchWithDay(s, n).Some? {
        FullDay(s, n);
      } else {
        Backtracked(s, n);
      }
    }
  }

  /** Without leading digits only a leading '-' can match, with no day. */
  lemma DashWithoutDay(s: string)
    requires DigitRun(s, 0) == 0 && MatchElapsed(s).Some?
    ensures MatchElapsed(s).value.day.None? && NoDayGroup(s)
  {
    assert MatchElapsed(s) == MatchWithDay(s, 0);
    assert s[0] == '-';
    assert s[..1] == "-";
  }

  /** The longest day run matches as the day. */
  lemma FullDay(s: string, n: nat)
    requires n == DigitRun(s, 0) && n > 0 && MatchWithDay(s, n).Some?
    requires DigitsBetween(s, 0, n) && !StartsWith(s, "-")
    ensures MatchElapsed(s).value.day.Some? && !NoDayGroup(s)
  {
    assert MatchElapsed(s) == MatchWithDay(s, n);
    if n == 1 {
      assert DigitRun(s, 1) == 0;
      assert MatchHour(s, Some(s[..1]), 1) == None;
      assert s[1] == '-';
    }
  }

  /** Otherwise the day run gives up its last digit to the hour. */
  lemma Backtracked(s: string, n: nat)
    requires n == DigitRun(s, 0) && n > 0 && MatchWithDay(s, n).None? && MatchElapsed(s).Some?
    requires DigitsBetween(s, 0, n) && !StartsWith(s, "-")
    ensures MatchElapsed(s).value.day.None? <==> NoDayGroup(s)
  {
    assert MatchElapsed(s) == MatchFrom(s, n - 1);
    DigitRunAt(s, n - 1, n);
    var day := if n - 1 == 0 then None else Some(s[..n - 1]);
    assert MatchWithDay(s, n - 1) == MatchHour(s, day, n - 1);
    if MatchMinSec(s, n).None? {
      assert MatchWithDay(s, n - 1) == None;
      if n - 1 > 0 {
        ShortDaysFail(s, n, n - 2);
      }
      assert false;
    }
    assert s[n] == ':';
    assert MatchElapsed(s) == MatchWithDay(s, n - 1);
  }

  // ---------------------------------------------------------------------
  // Slurm accounting rows

  /** What becomes of a row's state: a normalised name, or the row is
      ignored (jobs still running or pending). */
  datatype StateOutcome = KeepState(state: string) | IgnoreRow

  function NormaliseState(state: string): (r: StateOutcome)
    ensures StartsWith(state, "CANCELLED") ==> r == KeepState("CANCEL")
    ensures !StartsWith(state, "CANCELLED") && StartsWith(state, "FAILED") ==> r == KeepState("FAIL")
    ensures !StartsWith(state, "CANCELLED") && !StartsWith(state, "FAILED") && StartsWith(state, "COMPLETED") ==>
              r == KeepState("OK")
    ensures r == IgnoreRow <==> !StartsWith(state, "CANCELLED") && !StartsWith(state, "FAILED")
                                && !StartsWith(state, "COMPLETED") && (state == "RUNNING" || state == "PENDING")
    ensures r.KeepState? && r.state != state ==>
      r.state in {"CANCEL", "FAIL", "OK"} &&
      (StartsWith(state, "CANCELLED") || StartsWith(state, "FAILED") || StartsWith(state, "COMPLETED"))
  {
    if StartsWith(state, "CANCELLED") then KeepState("CANCEL")
    else if StartsWith(state, "FAILED") then KeepState("FAIL")
    else if StartsWith(state, "COMPLETED") then KeepState("OK")
    else if StartsWith(state, "TIMEOUT") then KeepState(state)
    else if StartsWith(state, "NODE_FAIL") then KeepState(state)
    else if state == "RUNNING" || state == "PENDING" then IgnoreRow
    else KeepState(state)
  }

  /** The fields the Slurm preparation keeps of an accepted row. */
  datatype SlurmRecord = SlurmRecord(
    jobid: string, nnodes: int, ppn: int, memory: int, elapsed: SlurmTime,
    timelimit: SlurmTime, consumedEnergy: int, state: string)

  datatype RowOutcome =
    | StepRow(elapsed: SlurmTime)   // a job step (".batch" and others): feeds the batch-time bookkeeping
    | Ignored                       // running or pending
    | Invalid                       // not twenty columns, or no positive node count
    | Accepted(record: SlurmRecord)

  /** The checks of one Slurm row, in the order the preparation applies
      them: the elapsed field, the step test on the job id, the state, the
      node count, then the remaining fields. */
  function ClassifySlurmRow(jobid: string, nnodes: string, ntasks: string, reqMem: string,
                            elapsed: string, timelimit: string, consumedEnergy: string, state: string)
    : (r: Result<RowOutcome, ParseError>)
    ensures r.Ok? && r.value.Accepted? ==>
      var rec := r.value.record;
      rec.nnodes > 0 && rec.ppn != -1 && IsDigits(jobid) && jobid != [] &&
      NormaliseState(state) == KeepState(rec.state) && ParseIntVal(Some(nnodes)) == Ok(rec.nnodes)
    ensures r.Ok? && r.value.Accepted? ==>
      var rec := r.value.record;
      rec.jobid == jobid && ParseSlurmDuration(elapsed) == Ok(rec.elapsed) &&
      ParseSlurmDuration(timelimit) == Ok(rec.timelimit) &&
      ParseIntVal(Some(consumedEnergy)) == Ok(rec.consumedEnergy) &&
      ParseNodeMemory(reqMem, rec.ppn) == Ok(rec.memory) &&
      ParseIntVal(Some(ntasks)).Ok? &&
      rec.ppn == (if ParseIntVal(Some(ntasks)).value == -1 then 1 else ParseIntVal(Some(ntasks)).value)
    ensures ParseSlurmDuration(elapsed).Ok? && IsDigits(jobid) && jobid != [] &&
            NormaliseState(state).KeepState? && ParseIntVal(Some(nnodes)).Ok? &&
            ParseIntVal(Some(nnodes)).value > 0 && ParseIntVal(Some(ntasks)).Ok? &&
            ParseNodeMemory(reqMem, if ParseIntVal(Some(ntasks)).value == -1 then 1
                                    else ParseIntVal(Some(ntasks)).value).Ok? &&
            ParseSlurmDuration(timelimit).Ok? && ParseIntVal(Some(consumedEnergy)).Ok?
      ==> r.Ok? && r.value.Accepted?
    ensures ParseSlurmDuration(elapsed).Err? ==> r == Err(ParseSlurmDuration(elapsed).error)
    ensures ParseSlurmDuration(elapsed).Ok? && !(IsDigits(jobid) && jobid != []) ==>
      r == Ok(StepRow(ParseSlurmDuration(elapsed).value))
    ensures ParseSlurmDuration(elapsed).Ok? && IsDigits(jobid) && jobid != [] &&
            NormaliseState(state) == IgnoreRow
      ==> r == Ok(Ignored)
    ensures ParseSlurmDuration(elapsed).Ok? && IsDigits(jobid) && jobid != [] &&
            NormaliseState(state).KeepState? && ParseIntVal(Some(nnodes)).Ok? &&
            ParseIntVal(Some(nnodes)).value <= 0
      ==> r == Ok(Invalid)
    ensures r.Ok? && r.value == Invalid ==>
      NormaliseState(state).KeepState? && ParseIntVal(Some(nnodes)).Ok? && ParseIntVal(Some(nnodes)).value <= 0
    ensures r.Ok? && r.value == Ignored ==> NormaliseState(state) == IgnoreRow
    ensures r.Ok? && r.value.StepRow? ==> !(IsDigits(jobid) && jobid != [])
  {
    match ParseSlurmDuration(elapsed)
    case Err(e) => Err(e)
    case Ok(el) =>
      if !(IsDigits(jobid) && jobid != []) then Ok(StepRow(el))
      else
        match NormaliseState(state)
        case IgnoreRow => Ok(Ignored)
        case KeepState(st) =>
          match ParseIntVal(Some(nnodes))
          case Err(e) => Err(e)
          case Ok(n) =>
            if n <= 0 then Ok(Invalid)
            else
              match ParseIntVal(Some(ntasks))
              case Err(e) => Err(e)
              case Ok(p0) =>
                var ppn := if p0 == -1 then 1 else p0;
                match ParseNodeMemory(reqMem, ppn)
                case Err(e) => Err(e)
                case Ok(mem) =>
                  match ParseSlurmDuration(timelimit)
                  case Err(e) => Err(e)
                  case Ok(tl) =>
                    match ParseIntVal(Some(consumedEnergy))
                    case Err(e) => Err(e)
                    case Ok(en) => Ok(Accepted(SlurmRecord(jobid, n, ppn, mem, el, tl, en, st)))
  }

  /** An empty task count defaults to one task per node. */
  lemma EmptyTaskCountIsOne(jobid: string, nnodes: string, reqMem: string,
                            elapsed: string, timelimit: string, consumedEnergy: string, state: string)
    requires ClassifySlurmRow(jobid, nnodes, "", reqMem, elapsed, timelimit, consumedEnergy, state).Ok?
    requires ClassifySlurmRow(jobid, nnodes, "", reqMem, elapsed, timelimit, consumedEnergy, state).value.Accepted?
    ensures ClassifySlurmRow(jobid, nnodes, "", reqMem, elapsed, timelimit, consumedEnergy, state).value.record.ppn == 1
  {
  }

  /** The number of columns of a Slurm accounting line. */
  const SlurmColumns: nat := 20

  /** One line of a Slurm accounting file: stripped, split at the
      delimiter, and classified on its columns when there are exactly
      twenty of them; a line with any other count is invalid. */
  function ClassifySlurmLine(line: string, delim: char): (r: Result<RowOutcome, ParseError>)
    ensures multiset(Strip(line))[delim] != SlurmColumns - 1 ==> r == Ok(Invalid)
    ensures multiset(Strip(line))[delim] == SlurmColumns - 1 ==>
      var f := Split(Strip(line), delim);
      |f| == SlurmColumns && r == ClassifySlurmRow(f[0], f[2], f[3], f[4], f[7], f[10], f[11], f[13])
  {
    var f := Split(Strip(line), delim);
    SplitPieces(Strip(line), delim);
    if |f| != SlurmColumns then Ok(Invalid)
    else ClassifySlurmRow(f[0], f[2], f[3], f[4], f[7], f[10], f[11], f[13])
  }

  /** A line joined from twenty fields without the delimiter is classified
      on those fields. */
  lemma SlurmLineOfFields(fields: seq<string>, delim: char)
    requires |fields| == SlurmColumns && forall k | 0 <= k < |fields| :: delim !in fields[k]
    requires Strip(Join(fields, delim)) == Join(fields, delim)
    ensures ClassifySlurmLine(Join(fields, delim), delim)
         == ClassifySlurmRow(fields[0], fields[2], fields[3], fields[4], fields[7], fields[10], fields[11], fields[13])
  {
    var line := Join(fields, delim);
    SplitJoin(fields, delim);
    SplitPieces(line, delim);
    assert Split(Strip(line), delim) == fields;
    assert multiset(Strip(line))[delim] == SlurmColumns - 1;
  }

  // ---------------------------------------------------------------------
  // LRZ rows

  /** Submissions earlier than 2014-01-01 (local time) are moved to it. */
  const EarliestSubmit: int := 1388530800

  datatype LrzOutcome =
    | RemovedShort   // removed by the operator within two seconds
    | EmptyJob       // no positive elapsed time
    | Added(job: Job)

  datatype LrzError =
    | NodeCountNotANumber       // `int` rejects the node-count field
    | JobRejected(reason: JobError)

  /** One LRZ row with its timestamps already converted: the submit clamp,
      the two skip rules, and the job built with one duration and the
      measured average power.  The power is the line's last field and keeps
      its line break, which `float` strips like any surrounding whitespace;
      a field that is still not a number gives 0. */
  function ClassifyLrzRow(jobid: string, submit: int, start: int, end: int, state: string,
                          energyTag: string, nnodes: string, apc: string)
    : (r: Result<LrzOutcome, LrzError>)
    ensures r.Ok? && r.value.Added? ==>
      var j := r.value.job;
      j.submissionTime == (if submit < EarliestSubmit then EarliestSubmit else submit) &&
      j.submissionTime >= EarliestSubmit && j.durations == [end - start] && end - start > 0 &&
      j.apc == Some(LrzPower(apc))
    ensures state == "Removed" && end - start < 2 ==> r == Ok(RemovedShort)
    ensures state != "Removed" && end - start <= 0 ==> r == Ok(EmptyJob)
    ensures !(state == "Removed" && end - start < 2) && end - start > 0 ==>
      r == LrzJob(jobid, if submit < EarliestSubmit then EarliestSubmit else submit,
                  end - start, energyTag, nnodes, LrzPower(apc))
  {
    var sub := if submit < EarliestSubmit then EarliestSubmit else submit;
    var elapsed := end - start;
    if state == "Removed" && elapsed < 2 then Ok(RemovedShort)
    else
      if elapsed <= 0 then Ok(EmptyJob)
      else LrzJob(jobid, sub, elapsed, energyTag, nnodes, LrzPower(apc))
  }

  /** The measured average power of an LRZ row: `float` of the field, or 0
      when it is not a number. */
  function LrzPower(apc: string): real
  {
    match ParseFloat(apc) case Some(x) => x case None => 0.0
  }

  /** The job of an LRZ row that survived the skip rules: `int` of the
      node count, then the constructor with one duration and the power. */
  function LrzJob(jobid: string, sub: int, elapsed: int, energyTag: string, nnodes: string, power: real)
    : (r: Result<LrzOutcome, LrzError>)
    ensures r.Ok? ==> r.value.Added?
    ensures r.Ok? ==> var j := r.value.job;
      j.submissionTime == sub && j.durations == [elapsed] && j.apc == Some(power)
    ensures ParseInt(nnodes).None? <==> r == Err(NodeCountNotANumber)
    ensures ParseInt(nnodes).Some? ==>
      var n := ParseInt(nnodes).value;
      var made := NewJob(jobid, energyTag, n, n, sub, [elapsed], None, Some(power), false);
      (r.Ok? <==> made.Ok?) && (made.Err? ==> r == Err(JobRejected(made.error))) &&
      (made.Ok? ==> r == Ok(Added(made.value)))
  {
    match ParseInt(nnodes)
    case None => Err(NodeCountNotANumber)
    case Some(n) =>
      match NewJob(jobid, energyTag, n, n, sub, [elapsed], None, Some(power), false)
      case Err(e) => Err(JobRejected(e))
      case Ok(j) => Ok(Added(j))
  }

  // ---------------------------------------------------------------------
  // Stored job lists

  /** Whether a stored job passes the partition filter (`None`: no filter). */
  predicate InPartition(j: Job, partition: Option<set<string>>)
  {
    partition.None? || (j.partition.Some? && j.partition.value in partition.value)
  }

  /** Whether a stored job is usable: a positive shortest run and no
      negative average power. */
  predicate Usable(j: Job)
  {
    j.durationMin > 0 && !(j.apc.Some? && j.apc.value < 0.0)
  }

  /** The stored jobs that pass both tests, in their stored order. */
  function Kept(jobs: seq<Job>, partition: Option<set<string>>): (r: seq<Job>)
    ensures |r| <= |jobs|
  {
    if jobs == [] then []
    else
      var n := |jobs| - 1;
      Kept(jobs[..n], partition) + (if InPartition(jobs[n], partition) && Usable(jobs[n]) then [jobs[n]] else [])
  }

  lemma KeptSnoc(jobs: seq<Job>, j: Job, partition: Option<set<string>>)
    ensures Kept(jobs + [j], partition)
         == Kept(jobs, partition) + (if InPartition(j, partition) && Usable(j) then [j] else [])
  {
    assert (jobs + [j])[..|jobs|] == jobs;
  }

  /** Exactly the stored jobs that pass both tests are kept, each as often
      as it is stored. */
  lemma {:induction false} KeptExactly(jobs: seq<Job>, partition: Option<set<string>>, j: Job)
    ensures multiset(Kept(jobs, partition))[j]
         == (if InPartition(j, partition) && Usable(j) then multiset(jobs)[j] else 0)
  {
    if jobs != [] {
      var n := |jobs| - 1;
      var last := jobs[n];
      KeptExactly(jobs[..n], partition, j);
      assert multiset(jobs) == multiset(jobs[..n]) + multiset{last} by {
        assert jobs == jobs[..n] + [last];
      }
      var tail := if InPartition(last, partition) && Usable(last) then [last] else [];
      assert multiset(Kept(jobs, partition)) == multiset(Kept(jobs[..n], partition)) + multiset(tail);
    }
  }

  /** A non-negative limit is a maximum count; a negative one never stops the
      scan. */
  function Limit(js: seq<Job>, limitCount: int): (r: seq<Job>)
    ensures limitCount >= 0 ==> |r| <= limitCount
    ensures r <= js
  {
    if 0 <= limitCount < |js| then js[..limitCount] else js
  }

  /** The jobs of a stored list, filtered and limited in one pass: the limit
      is checked only for jobs inside the partition, before their usability
      is tested. */
  method JobsFromList(jobs: seq<Job>, limitCount: int, partition: Option<set<string>>) returns (ret: seq<Job>)
    ensures ret == Limit(Kept(jobs, partition), limitCount)
  {
    ret := [];
    var i := 0;
    while i < |jobs|
      invariant 0 <= i <= |jobs|
      invariant ret == Kept(jobs[..i], partition)
      invariant limitCount >= 0 ==> |ret| <= limitCount
    {
      var j := jobs[i];
      assert jobs[..i + 1] == jobs[..i] + [j];
      KeptSnoc(jobs[..i], j, partition);
      if InPartition(j, partition) {
        if |ret| == limitCount {
          LimitAtPrefix(jobs, partition, i, limitCount);
          return;
        }
        if Usable(j) {
          ret := ret + [j];
        }
      }
      i := i + 1;
    }
    assert jobs[..i] == jobs;
  }

  /** Once a prefix keeps as many jobs as the limit, the limited list is
      that prefix's kept jobs. */
  lemma LimitAtPrefix(jobs: seq<Job>, partition: Option<set<string>>, i: nat, limitCount: int)
    requires i <= |jobs| && |Kept(jobs[..i], partition)| == limitCount
    ensures Kept(jobs[..i], partition) == Limit(Kept(jobs, partition), limitCount)
  {
    KeptPrefix(jobs, partition, i);
  }

  /** The kept jobs of a prefix are a prefix of the kept jobs. */
  lemma KeptPrefix(jobs: seq<Job>, partition: Option<set<string>>, i: nat)
    requires i <= |jobs|
    ensures Kept(jobs[..i], partition) <= Kept(jobs, partition)
    decreases |jobs| - i
  {
    if i < |jobs| {
      KeptPrefix(jobs, partition, i + 1);
      assert jobs[..i + 1] == jobs[..i] + [jobs[i]];
      KeptSnoc(jobs[..i], jobs[i], partition);
    } else {
      assert jobs[..i] == jobs;
    }
  }
}
