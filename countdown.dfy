/** The auction countdown of the client: where the end time comes from,
    and how the milliseconds left are split into days, hours, minutes and
    seconds. */
module Countdown {
  import opened Common
  import opened Text

  const MsPerSecond := 1000
  const MsPerMinute := 60 * 1000
  const MsPerHour := 60 * 60 * 1000
  const MsPerDay := 24 * 60 * 60 * 1000

  /** The hook's argument: no end time, a string, or a date. Parsing a
      string that is not all digits and reading a date are the browser's
      `Date` and not modelled: `parsed` and `ms` are what it yields, none
      for an invalid date. */
  datatype EndTime =
    | NoEnd
    | EndText(text: string, parsed: Option<int>)
    | EndDate(ms: Option<int>)

  datatype TimeRemaining = TimeRemaining(days: int, hours: int, minutes: int, seconds: int, isExpired: bool)

  const Expired := TimeRemaining(0, 0, 0, 0, true)

  /** `!endTime`: no end time, or the empty string. */
  predicate Falsy(e: EndTime)
  {
    e.NoEnd? || (e.EndText? && e.text == [])
  }

  /** The end instant in milliseconds: an all-digit string is read as an
      epoch timestamp, anything else goes through `Date`. None is `NaN`. */
  function EndMillis(e: EndTime): (r: Option<int>)
    requires !e.NoEnd?
    ensures e.EndText? && AllDigits(e.text) ==> r == Some(DigitsValue(e.text)) && r.value >= 0
    ensures e.EndText? && !AllDigits(e.text) ==> r == e.parsed
    ensures e.EndDate? ==> r == e.ms
  {
    match e
    case EndText(text, parsed) => if AllDigits(text) then Some(DigitsValue(text)) else parsed
    case EndDate(ms) => ms
  }

  /** calculateTimeRemaining for a known end: all zeros and expired for an
      invalid end or an end that is not in the future; otherwise the
      difference split into whole days, hours, minutes and seconds. */
  function CalculateTimeRemaining(end: Option<int>, now: int): (r: TimeRemaining)
    ensures r.isExpired <==> end.None? || end.value - now <= 0
    ensures r.isExpired ==> r == Expired
    ensures !r.isExpired ==>
      && r.days >= 0 && 0 <= r.hours < 24 && 0 <= r.minutes < 60 && 0 <= r.seconds < 60
  {
    if end.None? then Expired
    else
      var difference := end.value - now;
      if difference <= 0 then Expired
      else
        TimeRemaining(difference / MsPerDay,
                      (difference % MsPerDay) / MsPerHour,
                      (difference % MsPerHour) / MsPerMinute,
                      (difference % MsPerMinute) / MsPerSecond,
                      false)
  }

  /** The value the hook reports at time `now`: what the initial state and
      every tick of the interval compute. */
  function Remaining(e: EndTime, now: int): (r: TimeRemaining)
    ensures Falsy(e) ==> r == Expired
  {
    if Falsy(e) then Expired else CalculateTimeRemaining(EndMillis(e), now)
  }

  /** A remainder modulo a multiple `big` of `small` splits into whole
      `small`s and the remainder modulo `small`. */
  lemma ModSplit(x: int, big: int, small: int, k: int)
    requires small > 0 && k > 0 && big == small * k && x >= 0
    ensures x % big == (x % big) / small * small + x % small
  {
    var q := x / big;
    var r := x % big;
    var h := r / small;
    var s := r % small;
    assert x == q * big + r;
    assert r == h * small + s;
    assert x == (q * k + h) * small + s by {
      assert q * big == q * k * small;
    }
    ModUnique(x, small, q * k + h, s);
  }

  /** Any decomposition with a remainder in range gives the remainder. */
  lemma ModUnique(x: int, m: int, q: int, r: int)
    requires m > 0 && 0 <= r < m && x == q * m + r
    ensures x % m == r
  {
    var q', r' := x / m, x % m;
    assert x == q' * m + r';
    assert (q - q') * m == r' - r;
    if q > q' {
      MulAtLeast(q - q', m);
    } else if q < q' {
      MulAtLeast(q' - q, m);
    }
  }

  lemma MulAtLeast(d: int, m: int)
    requires d >= 1 && m > 0
    ensures d * m >= m
  {
    assert d * m == (d - 1) * m + m;
  }

  /** The parts add up to the difference, to within the milliseconds the
      seconds drop: `d·86400000 + h·3600000 + m·60000 + s·1000 ≤ diff`
      and the next second is already beyond it. */
  lemma CountdownAddsUp(end: int, now: int)
    requires end - now > 0
    ensures var r := CalculateTimeRemaining(Some(end), now);
      var total := r.days * MsPerDay + r.hours * MsPerHour + r.minutes * MsPerMinute + r.seconds * MsPerSecond;
      total <= end - now < total + MsPerSecond
  {
    var diff := end - now;
    ModSplit(diff, MsPerDay, MsPerHour, 24);
    ModSplit(diff, MsPerHour, MsPerMinute, 60);
    ModSplit(diff, MsPerMinute, MsPerSecond, 60);
  }

  /** Less than a second before the end every part is zero, yet the
      auction is not reported as expired. */
  lemma LastSecondIsNotExpired(end: int, now: int)
    requires 0 < end - now < MsPerSecond
    ensures CalculateTimeRemaining(Some(end), now) == TimeRemaining(0, 0, 0, 0, false)
  {
  }

  /** The values the hook shows for the instants `nows` of successive
      ticks: the interval is cleared after the first tick reporting
      expiry, so no later tick is computed. */
  function Ticks(e: EndTime, nows: seq<int>): (r: seq<TimeRemaining>)
    requires !Falsy(e)
    ensures |r| <= |nows|
    ensures forall i :: 0 <= i < |r| ==> r[i] == Remaining(e, nows[i])
    ensures forall i :: 0 <= i < |r| - 1 ==> !r[i].isExpired
    ensures |r| < |nows| ==> |r| > 0 && r[|r| - 1].isExpired
  {
    if nows == [] then []
    else
      var first := Remaining(e, nows[0]);
      if first.isExpired then [first] else [first] + Ticks(e, nows[1..])
  }

  /** With the clock moving forward, the ticks stop exactly at the first
      tick at or after the end: every tick before it is live. */
  lemma {:induction false} TicksStopAtEnd(e: EndTime, nows: seq<int>)
    requires !Falsy(e) && EndMillis(e).Some?
    requires forall i :: 0 <= i < |nows| ==> nows[i] < EndMillis(e).value
    ensures Ticks(e, nows) == seq(|nows|, i requires 0 <= i < |nows| => Remaining(e, nows[i]))
  {
    if nows != [] {
      TicksStopAtEnd(e, nows[1..]);
      var first := Remaining(e, nows[0]);
      assert !first.isExpired;
      assert Ticks(e, nows) == [first] + Ticks(e, nows[1..]);
    }
  }
}
