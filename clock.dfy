/** The fields of `time.localtime(t)` that the script reads, on epoch seconds.
    Days are exactly 86400 seconds; no calendar or time zone database is used. */
module Clock {

  const SecondsPerDay := 86400
  const SecondsPerHour := 3600

  /** `time.localtime(t)[3]`: the hour of the day. */
  function HourOfDay(t: int): (h: int)
    ensures 0 <= h < 24
  {
    (t % SecondsPerDay) / SecondsPerHour
  }

  /** `time.localtime(t)[4]`: the minute of the hour. */
  function MinuteOfHour(t: int): (m: int)
    ensures 0 <= m < 60
  {
    (t % SecondsPerHour) / 60
  }

  /** The hour is the one whose hour-long window of the day holds `t`. */
  lemma HourOfDayWindow(t: int, h: int)
    ensures HourOfDay(t) == h <==> 0 <= h < 24 && h * 3600 <= t % 86400 < (h + 1) * 3600
  {
  }

  /** The time of day splits into hour, minute and second fields. */
  lemma {:induction false} TimeOfDayFields(t: int)
    ensures t % SecondsPerDay == HourOfDay(t) * 3600 + MinuteOfHour(t) * 60 + t % 60
  {
    var d := t % 86400;
    var k := t / 86400;
    assert t == 86400 * k + d;
    RemainderUnique(t, 3600, 24 * k + d / 3600, d % 3600);
    var e := t % 3600;
    RemainderUnique(t, 60, 60 * (24 * k + d / 3600) + e / 60, e % 60);
  }

  /** Euclidean division is unique: a remainder in range is `%`. */
  lemma RemainderUnique(x: int, m: int, q: int, r: int)
    requires m > 0 && x == m * q + r && 0 <= r < m
    ensures x % m == r
  {
    var d := x / m - q;
    assert m * d == r - x % m;
    if d >= 1 {
      AtLeastOneMultiple(m, d);
    } else if d <= -1 {
      AtLeastOneMultiple(m, -d);
    }
  }

  lemma AtLeastOneMultiple(m: int, d: int)
    requires m > 0 && d >= 1
    ensures m * d >= m
  {
    assert m * d - m == m * (d - 1);
  }
}
