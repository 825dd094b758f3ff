/** The sleep scheduler of `go_to_sleep`: how long to deep-sleep given the
    local time. The deep sleep itself is not part of the model. */
module Sleep {
  import opened Clock

  /** Seconds to sleep at local time `hour`:`minutes`: until 06:00 after
      20:59, until 06:00 before 06:00, otherwise to the top of the next odd
      hour. */
  function SleepSeconds(hour: int, minutes: int): (s: int)
    ensures 0 <= hour < 24 && 0 <= minutes < 60 ==> s > 0 && s % 60 == 0
    ensures hour > 20 ==> hour * 60 + minutes + s / 60 == 24 * 60 + 6 * 60
    ensures hour < 6 ==> hour * 60 + minutes + s / 60 == 6 * 60
    ensures 6 <= hour <= 20 ==> (hour * 60 + minutes + s / 60) % 120 == 60
    ensures 6 <= hour <= 20 && 0 <= minutes < 60 ==> 60 <= s <= 7200
  {
    if hour > 20 then ((((24 - hour) * 60) - minutes) + (6 * 60)) * 60
    else if hour < 6 then (((6 - hour) * 60) - minutes) * 60
    else (((hour % 2) * 60) + (60 - minutes)) * 60
  }

  /** Worked cases: 21:10, 02:00 and 13:15. */
  lemma SleepExamples()
    ensures SleepSeconds(21, 10) == 31800
    ensures SleepSeconds(2, 0) == 14400
    ensures SleepSeconds(13, 15) == 6300
  {
  }

  /** The sleep computed from local epoch seconds `t` (UTC time plus the
      time zone offset), reading only its hour and minute. */
  function SleepAt(t: int): int {
    SleepSeconds(HourOfDay(t), MinuteOfHour(t))
  }

  /** The seconds field is ignored: the sleep is the same at the start of the minute. */
  lemma SleepIgnoresSeconds(t: int)
    ensures SleepAt(t) == SleepAt(t - t % 60)
  {
    var u := t - t % 60;
    StartOfMinute(t);
    assert HourOfDay(u) == HourOfDay(t) by {
      HourOfDayWindow(u, HourOfDay(t));
      HourOfDayWindow(t, HourOfDay(t));
    }
    assert MinuteOfHour(u) == MinuteOfHour(t) by {
      TimeOfDayFields(t);
      TimeOfDayFields(u);
    }
  }

  /** Going back to the start of the minute only clears the seconds of the day. */
  lemma StartOfMinute(t: int)
    ensures (t - t % 60) % 86400 == t % 86400 - t % 60
    ensures (t - t % 60) % 60 == 0
  {
    TimeOfDayFields(t);
    RemainderUnique(t - t % 60, 86400, t / 86400, t % 86400 - t % 60);
    RemainderUnique(t - t % 60, 60, t / 60, 0);
  }

  /** The instant the sleep ends, split into the start of the local day, the
      minute of the day at which the sleep ends, and the seconds of `t`. */
  lemma WakeOffset(t: int)
    ensures t + SleepAt(t) ==
      86400 * (t / 86400) + 60 * (HourOfDay(t) * 60 + MinuteOfHour(t) + SleepAt(t) / 60) + t % 60
  {
    TimeOfDayFields(t);
    var s := SleepAt(t);
    assert s == 60 * (s / 60);
  }

  /** After an evening or night run the device wakes at 06:00 local time, plus
      the seconds field of the time it went to sleep. */
  lemma WakeAtSix(t: int)
    requires HourOfDay(t) > 20 || HourOfDay(t) < 6
    ensures (t + SleepAt(t)) % 86400 == 6 * 3600 + t % 60
  {
    var h := HourOfDay(t);
    var n := h * 60 + MinuteOfHour(t) + SleepAt(t) / 60;
    var d := t / 86400;
    WakeOffset(t);
    if h > 20 {
      assert n == 1800;
      RemainderUnique(t + SleepAt(t), 86400, d + 1, 6 * 3600 + t % 60);
    } else {
      assert n == 360;
      RemainderUnique(t + SleepAt(t), 86400, d, 6 * 3600 + t % 60);
    }
  }

  /** During the day the device wakes at the top of an odd hour, plus the
      seconds field of the time it went to sleep. */
  lemma WakeAtOddHour(t: int)
    requires 6 <= HourOfDay(t) <= 20
    ensures (t + SleepAt(t)) % 7200 == 3600 + t % 60
  {
    var n := HourOfDay(t) * 60 + MinuteOfHour(t) + SleepAt(t) / 60;
    var d := t / 86400;
    var k := n / 120;
    WakeOffset(t);
    assert n == 120 * k + 60;
    assert t + SleepAt(t) == 7200 * (12 * d + k) + 3600 + t % 60;
    RemainderUnique(t + SleepAt(t), 7200, 12 * d + k, 3600 + t % 60);
  }

  /** Where the device wakes, `SleepAt(t)` seconds after local time `t`: at
      06:00 after an evening or night run, otherwise at the top of an odd
      hour, in both cases plus the seconds field of `t`. */
  lemma WakeTime(t: int)
    ensures var wake := t + SleepAt(t);
      var h := HourOfDay(t);
      (h > 20 || h < 6 ==> wake % 86400 == 6 * 3600 + t % 60) &&
      (6 <= h <= 20 ==> wake % 7200 == 3600 + t % 60)
  {
    var h := HourOfDay(t);
    if h > 20 || h < 6 {
      WakeAtSix(t);
    } else {
      WakeAtOddHour(t);
    }
  }
}
