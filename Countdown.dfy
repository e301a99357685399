/** The countdown shown in the promotion section: a millisecond distance to a
    deadline split into days, hours, minutes and seconds, refreshed by a
    once-a-second tick that stops for good once the deadline has passed. */
module Countdown {

  import opened Arithmetic

  const MsPerSecond: int := 1000
  const MsPerMinute: int := 60 * MsPerSecond
  const MsPerHour: int := 60 * MsPerMinute
  const MsPerDay: int := 24 * MsPerHour

  /** The four numbers the timer displays. */
  datatype TimeLeft = TimeLeft(days: int, hours: int, minutes: int, seconds: int)

  const Zero: TimeLeft := TimeLeft(0, 0, 0, 0)

  /** Every component lies in the range its unit allows. */
  predicate InRange(t: TimeLeft) {
    t.days >= 0 && 0 <= t.hours < 24 && 0 <= t.minutes < 60 && 0 <= t.seconds < 60
  }

  /** The whole milliseconds a displayed value stands for. */
  function Millis(t: TimeLeft): int {
    t.days * MsPerDay + t.hours * MsPerHour + t.minutes * MsPerMinute + t.seconds * MsPerSecond
  }

  /** The split of a non-negative distance: floor division of the distance by a
      day, and of its remainder modulo each larger unit by the next smaller one.
      For a non-negative distance JavaScript's Math.floor(a / b) and a % b
      agree with Dafny's / and %. */
  function Split(distance: int): (t: TimeLeft)
    requires distance >= 0
    ensures InRange(t)
  {
    TimeLeft(distance / MsPerDay,
             (distance % MsPerDay) / MsPerHour,
             (distance % MsPerHour) / MsPerMinute,
             (distance % MsPerMinute) / MsPerSecond)
  }

  /** Reducing modulo a multiple of a unit and then modulo the unit is the
      same as reducing modulo the unit. */
  lemma ModOfMultiple(a: int, unit: int, k: int)
    requires a >= 0 && unit > 0 && k > 0
    ensures (a % (unit * k)) % unit == a % unit
    ensures a % (unit * k) == (a % (unit * k)) / unit * unit + a % unit
  {
    var big := unit * k;
    var q, r := a / big, a % big;
    var q2, r2 := r / unit, r % unit;
    assert a == q * big + r;
    assert r == q2 * unit + r2;
    assert a == (q * k + q2) * unit + r2;
    DivModUnique(a, unit, q * k + q2, r2);
  }

  /** The split loses only the sub-second milliseconds: what it displays is the
      distance rounded down to a whole second. */
  lemma SplitLosesOnlySubSecond(distance: int)
    requires distance >= 0
    ensures Millis(Split(distance)) == distance - distance % MsPerSecond
    ensures Millis(Split(distance)) <= distance < Millis(Split(distance)) + MsPerSecond
  {
    var t := Split(distance);
    var d := distance;
    assert d == t.days * MsPerDay + d % MsPerDay;
    ModOfMultiple(d, MsPerHour, 24);
    assert d % MsPerDay == t.hours * MsPerHour + d % MsPerHour;
    ModOfMultiple(d, MsPerMinute, 60);
    assert d % MsPerHour == t.minutes * MsPerMinute + d % MsPerMinute;
    ModOfMultiple(d, MsPerSecond, 60);
    assert d % MsPerMinute == t.seconds * MsPerSecond + d % MsPerSecond;
  }

  /** The split is the only in-range value that stands for the distance up to
      a second: any other decomposition with the same bounds is the same one. */
  lemma SplitUnique(distance: int, t: TimeLeft)
    requires distance >= 0 && InRange(t)
    requires Millis(t) <= distance < Millis(t) + MsPerSecond
    ensures t == Split(distance)
  {
    var d := distance;
    var rest := d - Millis(t);
    var s := t.seconds * MsPerSecond + rest;
    var m := t.minutes * MsPerMinute + s;
    var h := t.hours * MsPerHour + m;
    assert 0 <= s < MsPerMinute;
    assert 0 <= m < MsPerHour;
    assert 0 <= h < MsPerDay;
    DivModUnique(d, MsPerDay, t.days, h);
    DivModUnique(h, MsPerHour, t.hours, m);
    DivModUnique(m, MsPerMinute, t.minutes, s);
    DivModUnique(s, MsPerSecond, t.seconds, rest);
    assert d == (t.days * 24 + t.hours) * MsPerHour + m;
    DivModUnique(d, MsPerHour, t.days * 24 + t.hours, m);
    assert d == ((t.days * 24 + t.hours) * 60 + t.minutes) * MsPerMinute + s;
    DivModUnique(d, MsPerMinute, (t.days * 24 + t.hours) * 60 + t.minutes, s);
  }

  /** A countdown towards a fixed deadline (epoch milliseconds). The interval
      callback becomes Tick, with the current time passed in. */
  class CountdownTimer {
    const targetDate: int
    var timeLeft: TimeLeft
    /** False once the interval has been cleared. */
    var running: bool

    /** The displayed value is always in range, and a stopped timer shows zero. */
    predicate Valid()
      reads this
    {
      InRange(timeLeft) && (!running ==> timeLeft == Zero)
    }

    /** Mounting shows all zeros until the first tick. */
    constructor (targetDate: int)
      ensures Valid()
      ensures this.targetDate == targetDate && timeLeft == Zero && running
    {
      this.targetDate := targetDate;
      timeLeft := Zero;
      running := true;
    }

    /** One interval callback at time now. A negative distance clears the
        interval and freezes the display at zero; otherwise the display shows
        the split of the distance. A cleared interval never fires again. */
    method Tick(now: int)
      requires Valid()
      modifies this
      ensures Valid()
      ensures !old(running) ==> unchanged(this)
      ensures old(running) && targetDate - now < 0 ==> !running && timeLeft == Zero
      ensures old(running) && targetDate - now >= 0 ==> running && timeLeft == Split(targetDate - now)
    {
      if !running {
        return;
      }
      var distance := targetDate - now;
      if distance < 0 {
        running := false;
        timeLeft := Zero;
      } else {
        timeLeft := Split(distance);
      }
    }
  }
}
