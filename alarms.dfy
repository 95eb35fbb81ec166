/** When the next hourly notification fires (app/.../prijswijs/Alarms/AlarmScheduler.kt):
    on the next full hour plus five seconds while the user is awake, at five seconds past
    the wake-up hour during the bedtime window.

    Instants are milliseconds of local civil time: the device's zone offset is already
    added, and every day has 24 hours (no daylight-saving change). */
module Alarms {
  import opened PriceModel
  import opened PersistenceModel

  const SecondMillis: int := 1000
  const MinuteMillis: int := 60_000
  const DayMillis: int := 86_400_000

  /** `Calendar.HOUR_OF_DAY` of an instant. */
  function HourOfDay(t: int): (h: int)
    ensures 0 <= h < 24
  {
    (t % DayMillis) / HourMillis
  }

  /** `set(Calendar.HOUR_OF_DAY, h)`: same day, minutes and below. */
  function WithHourOfDay(t: int, h: int): int {
    t - t % DayMillis + h * HourMillis + t % HourMillis
  }

  /** `set(Calendar.MINUTE, m)`: same hour, seconds and below. */
  function WithMinute(t: int, m: int): int {
    t - t % HourMillis + m * MinuteMillis + t % MinuteMillis
  }

  /** `set(Calendar.SECOND, s)`: same minute and milliseconds. */
  function WithSecond(t: int, s: int): int {
    t - t % MinuteMillis + s * SecondMillis + t % SecondMillis
  }

  /** `set(Calendar.MILLISECOND, ms)`. */
  function WithMillisecond(t: int, ms: int): int {
    t - t % SecondMillis + ms
  }

  /** Setting the hour of the day gives that hour on the same day and keeps the position
      within the hour. */
  lemma WithHourOfDayEffect(t: int, h: int)
    requires 0 <= h < 24
    ensures HourOfDay(WithHourOfDay(t, h)) == h
    ensures WithHourOfDay(t, h) - WithHourOfDay(t, h) % DayMillis == t - t % DayMillis
    ensures WithHourOfDay(t, h) % HourMillis == t % HourMillis
  {
    var d := t - t % DayMillis;
    assert d % DayMillis == 0 && d % HourMillis == 0 by {
      assert d == (t / DayMillis) * DayMillis;
      assert d == ((t / DayMillis) * 24) * HourMillis;
    }
    var r := t % HourMillis;
    var x := h * HourMillis + r;
    assert 0 <= x < DayMillis;
    SameResidue(WithHourOfDay(t, h), x, t / DayMillis, DayMillis);
    SameResidue(WithHourOfDay(t, h), r, (t / DayMillis) * 24 + h, HourMillis);
    assert x / HourMillis == h by {
      DivOf(h, r, HourMillis);
    }
  }

  /** `a == b + k * m` with `0 <= b < m` pins down `a % m`. */
  lemma SameResidue(a: int, b: int, k: int, m: int)
    requires m > 0 && 0 <= b < m && a == b + k * m
    ensures a % m == b && a / m == k
  {
    var q := a / m;
    var r := a % m;
    assert a == q * m + r;
    assert (k - q) * m == k * m - q * m;
    if k > q {
      MulAtLeast(k - q, m);
    } else if k < q {
      MulAtLeast(q - k, m);
    }
  }

  lemma {:induction false} MulAtLeast(d: int, m: int)
    requires d >= 1 && m > 0
    ensures d * m >= m
  {
    if d > 1 {
      MulAtLeast(d - 1, m);
      assert d * m == (d - 1) * m + m;
    }
  }

  lemma DivOf(q: int, r: int, m: int)
    requires m > 0 && 0 <= r < m
    ensures (q * m + r) / m == q
  {
    SameResidue(q * m + r, r, q, m);
  }

  /** Minute 0 within an hour keeps the seconds and below. */
  lemma MinuteZero(q: int, r: int)
    requires 0 <= r < HourMillis
    ensures WithMinute(q * HourMillis + r, 0) == q * HourMillis + r % MinuteMillis
  {
    SameResidue(q * HourMillis + r, r, q, HourMillis);
    SameResidue(r, r % MinuteMillis, r / MinuteMillis, MinuteMillis);
    SameResidue(q * HourMillis + r, r % MinuteMillis, q * 60 + r / MinuteMillis, MinuteMillis);
  }

  /** Second 5 within a minute keeps the milliseconds. */
  lemma SecondFive(q: int, s: int)
    requires 0 <= s < MinuteMillis
    ensures WithSecond(q * MinuteMillis + s, 5) == q * MinuteMillis + 5 * SecondMillis + s % SecondMillis
  {
    SameResidue(q * MinuteMillis + s, s, q, MinuteMillis);
    SameResidue(s, s % SecondMillis, s / SecondMillis, SecondMillis);
    SameResidue(q * MinuteMillis + s, s % SecondMillis, q * 60 + s / SecondMillis, SecondMillis);
  }

  lemma MillisecondZero(q: int, x: int)
    requires 0 <= x < SecondMillis
    ensures WithMillisecond(q * SecondMillis + x, 0) == q * SecondMillis
  {
    SameResidue(q * SecondMillis + x, x, q, SecondMillis);
  }

  /** Minute 0, second 5, millisecond 0 anywhere in an hour: five seconds past it. */
  lemma FiveSecondsPastHour(q: int, r: int)
    requires 0 <= r < HourMillis
    ensures WithMillisecond(WithSecond(WithMinute(q * HourMillis + r, 0), 5), 0) == q * HourMillis + 5 * SecondMillis
  {
    MinuteZero(q, r);
    var s := r % MinuteMillis;
    assert q * HourMillis == (q * 60) * MinuteMillis;
    SecondFive(q * 60, s);
    assert q * HourMillis + 5 * SecondMillis == (q * 3600 + 5) * SecondMillis;
    MillisecondZero(q * 3600 + 5, s % SecondMillis);
  }

  /** The wake-up hour of the given day, then minute 0, second 5, millisecond 0: five
      seconds past that hour. */
  lemma AtFiveSecondsPast(t: int, h: int)
    requires 0 <= h < 24
    ensures WithMillisecond(WithSecond(WithMinute(WithHourOfDay(t, h), 0), 5), 0)
              == t - t % DayMillis + h * HourMillis + 5 * SecondMillis
  {
    var q := (t / DayMillis) * 24 + h;
    assert WithHourOfDay(t, h) == q * HourMillis + t % HourMillis;
    FiveSecondsPastHour(q, t % HourMillis);
  }

  /** The next full hour, then five seconds. */
  lemma NextHourFiveSeconds(t: int)
    ensures WithMillisecond(WithSecond(WithMinute(t + HourMillis, 0), 5), 0)
              == t - t % HourMillis + HourMillis + 5 * SecondMillis
  {
    var q := t / HourMillis + 1;
    assert t + HourMillis == q * HourMillis + t % HourMillis;
    FiveSecondsPastHour(q, t % HourMillis);
  }
  /** An instant as a `java.util.Calendar`: the fields the scheduler touches, each change
      a function of the previous instant. */
  class Calendar {
    var timeInMillis: int

    constructor(now: int)
      ensures timeInMillis == now
    {
      timeInMillis := now;
    }

    function HourOfDayField(): int
      reads this
    {
      HourOfDay(timeInMillis)
    }

    /** `add(Calendar.DAY_OF_MONTH, n)`. */
    method AddDays(n: int)
      modifies this
      ensures timeInMillis == old(timeInMillis) + n * DayMillis
    {
      timeInMillis := timeInMillis + n * DayMillis;
    }

    /** `add(Calendar.HOUR, n)`. */
    method AddHours(n: int)
      modifies this
      ensures timeInMillis == old(timeInMillis) + n * HourMillis
    {
      timeInMillis := timeInMillis + n * HourMillis;
    }

    method SetHourOfDay(h: int)
      modifies this
      ensures timeInMillis == WithHourOfDay(old(timeInMillis), h)
    {
      timeInMillis := WithHourOfDay(timeInMillis, h);
    }

    method SetMinute(m: int)
      modifies this
      ensures timeInMillis == WithMinute(old(timeInMillis), m)
    {
      timeInMillis := WithMinute(timeInMillis, m);
    }

    method SetSecond(s: int)
      modifies this
      ensures timeInMillis == WithSecond(old(timeInMillis), s)
    {
      timeInMillis := WithSecond(timeInMillis, s);
    }

    method SetMillisecond(ms: int)
      modifies this
      ensures timeInMillis == WithMillisecond(old(timeInMillis), ms)
    {
      timeInMillis := WithMillisecond(timeInMillis, ms);
    }
  }

  // ---- The bedtime window ----

  /** `isPastBedtime` for the current hour. */
  function IsPastBedtime(bedTimeHour: int, wakeUpHour: int, currentHour: int): bool {
    if bedTimeHour < wakeUpHour then bedTimeHour <= currentHour < wakeUpHour
    else currentHour >= bedTimeHour || currentHour < wakeUpHour
  }

  /** For hours of the day the user is awake exactly on the hours from the wake-up hour
      up to, not including, the bedtime hour, counted round the clock; when the two
      coincide that span is empty and every hour is bedtime. */
  lemma AwakeWindow(bedTimeHour: int, wakeUpHour: int, currentHour: int)
    requires 0 <= bedTimeHour < 24 && 0 <= wakeUpHour < 24 && 0 <= currentHour < 24
    ensures !IsPastBedtime(bedTimeHour, wakeUpHour, currentHour) <==>
      (currentHour - wakeUpHour) % 24 < (bedTimeHour - wakeUpHour) % 24
    ensures bedTimeHour == wakeUpHour ==> IsPastBedtime(bedTimeHour, wakeUpHour, currentHour)
  {
  }

  // ---- The trigger ----

  /** The wake-up branch: to the wake-up day (tomorrow when bedtime already started
      today), wake-up hour, minute 0, second 5; a day later if that is not after now. */
  function WakeUpTrigger(now: int, bedTimeHour: int, wakeUpHour: int): int {
    var currentHour := HourOfDay(now);
    var day := if wakeUpHour <= bedTimeHour <= currentHour then now + DayMillis else now;
    var t := WithMillisecond(WithSecond(WithMinute(WithHourOfDay(day, wakeUpHour), 0), 5), 0);
    if t <= now then t + DayMillis else t
  }

  /** The other branch: an hour on, minute 0, second 5. */
  function NextHourTrigger(now: int): int {
    WithMillisecond(WithSecond(WithMinute(now + HourMillis, 0), 5), 0)
  }

  /** The time `scheduleHourlyAlarm` hands to the alarm manager. */
  function ScheduleTrigger(now: int, settings: Settings): int {
    if IsPastBedtime(settings.bedTime, settings.wakeUpTime, HourOfDay(now))
    then WakeUpTrigger(now, settings.bedTime, settings.wakeUpTime)
    else NextHourTrigger(now)
  }

  /** The first instant after `now` that lies five seconds past `hour` o'clock. */
  function FirstAfter(now: int, hour: int): int {
    var t := now - now % DayMillis + hour * HourMillis + 5 * SecondMillis;
    if t > now then t else t + DayMillis
  }

  /** `FirstAfter` is after `now`, within a day of it, and five seconds past the hour. */
  lemma FirstAfterIs(now: int, hour: int)
    requires 0 <= hour < 24
    ensures now < FirstAfter(now, hour) <= now + DayMillis
    ensures FirstAfter(now, hour) % DayMillis == hour * HourMillis + 5 * SecondMillis
  {
    var k := now / DayMillis;
    var t := now - now % DayMillis + hour * HourMillis + 5 * SecondMillis;
    SameResidue(t, hour * HourMillis + 5 * SecondMillis, k, DayMillis);
    SameResidue(t + DayMillis, hour * HourMillis + 5 * SecondMillis, k + 1, DayMillis);
  }

  /** During the bedtime window the alarm is set for five seconds past the wake-up hour,
      the first such instant after now; only when bedtime and wake-up coincide and the
      clock stands within the first five seconds of that hour is a whole day skipped. */
  lemma WakeUpTriggerFirst(now: int, bedTimeHour: int, wakeUpHour: int)
    requires 0 <= wakeUpHour < 24
    requires IsPastBedtime(bedTimeHour, wakeUpHour, HourOfDay(now))
    ensures var r := WakeUpTrigger(now, bedTimeHour, wakeUpHour);
      r > now &&
      if bedTimeHour == wakeUpHour && HourOfDay(now) == wakeUpHour && now % HourMillis < 5 * SecondMillis
      then r == FirstAfter(now, wakeUpHour) + DayMillis
      else r == FirstAfter(now, wakeUpHour)
  {
    var currentHour := HourOfDay(now);
    var day := if wakeUpHour <= bedTimeHour <= currentHour then now + DayMillis else now;
    AtFiveSecondsPast(day, wakeUpHour);
    var k := now / DayMillis;
    var m := now % DayMillis;
    assert now - m == k * DayMillis;
    SameResidue(now + DayMillis, m, k + 1, DayMillis);
    assert m / HourMillis == currentHour;
    assert currentHour * HourMillis <= m < (currentHour + 1) * HourMillis;
    SameResidue(m, m % HourMillis, currentHour, HourMillis);
    SameResidue(now, m % HourMillis, k * 24 + currentHour, HourMillis);
  }

  /** While awake the alarm is set for five seconds past the next full hour. */
  lemma NextHourTriggerAfter(now: int)
    ensures NextHourTrigger(now) == now - now % HourMillis + HourMillis + 5 * SecondMillis
    ensures now < NextHourTrigger(now) <= now + HourMillis + 5 * SecondMillis
    ensures NextHourTrigger(now) % HourMillis == 5 * SecondMillis
  {
    NextHourFiveSeconds(now);
    SameResidue(NextHourTrigger(now), 5 * SecondMillis, now / HourMillis + 1, HourMillis);
  }

  /** Whichever branch is taken, the alarm lies strictly after now. */
  lemma TriggerAfterNow(now: int, settings: Settings)
    requires 0 <= settings.wakeUpTime < 24
    ensures ScheduleTrigger(now, settings) > now
  {
    if IsPastBedtime(settings.bedTime, settings.wakeUpTime, HourOfDay(now)) {
      WakeUpTriggerFirst(now, settings.bedTime, settings.wakeUpTime);
    } else {
      NextHourTriggerAfter(now);
    }
  }

  /** `scheduleHourlyAlarm` without the permission check and the alarm manager: the
      bedtime test on the current hour, then the calendar changes of the chosen branch.
      One clock reading stands for the three the Kotlin code makes. */
  method ScheduleHourlyAlarm(now: int, settings: Settings) returns (trigger: int)
    requires 0 <= settings.wakeUpTime < 24
    ensures trigger == ScheduleTrigger(now, settings)
    ensures trigger > now
  {
    var calendar := new Calendar(now);
    var bedTimeHour := settings.bedTime;
    var wakeUpHour := settings.wakeUpTime;
    var currentHour := calendar.HourOfDayField();
    var isPastBedtime := IsPastBedtime(bedTimeHour, wakeUpHour, currentHour);
    calendar.timeInMillis := now;
    if isPastBedtime {
      if wakeUpHour <= bedTimeHour <= currentHour {
        calendar.AddDays(1);
      }
      calendar.SetHourOfDay(wakeUpHour);
      calendar.SetMinute(0);
      calendar.SetSecond(5);
      calendar.SetMillisecond(0);
      if calendar.timeInMillis <= now {
        calendar.AddDays(1);
      }
    } else {
      calendar.AddHours(1);
      calendar.SetMinute(0);
      calendar.SetSecond(5);
      calendar.SetMillisecond(0);
    }
    trigger := calendar.timeInMillis;
    TriggerAfterNow(now, settings);
  }
}
