/** The forecast formatter: raw hourly records from the One Call response
    become the records the display code reads. */
module Forecast {
  import opened Wrappers
  import opened Clock

  /** One element of an hourly record's "weather" list. */
  datatype WeatherEntry = WeatherEntry(icon: string)

  /** An hourly record of the response: "dt" (UTC epoch seconds), "temp",
      "pop" (probability of precipitation, 0..1) and "weather". */
  datatype RawHour = RawHour(dt: int, temp: real, pop: real, weather: seq<WeatherEntry>)

  /** A formatted hour: "time", local "hour" of day, "temp", "icon" and "pop". */
  datatype FormattedHour = FormattedHour(time: int, hour: int, temp: real, icon: string, pop: real)

  /** The lookup that fails while formatting: `hour_obj["weather"][0]` on an
      empty list raises IndexError at the record with this position. */
  datatype FormatError = MissingWeather(index: nat)

  /** `f` is the formatted form of `raw` under time zone offset `offset`. */
  predicate FormatsAs(raw: RawHour, offset: int, f: FormattedHour) {
    |raw.weather| > 0 &&
    f.time == raw.dt && f.hour == HourOfDay(raw.dt + offset) &&
    f.temp == raw.temp && f.icon == raw.weather[0].icon && f.pop == raw.pop
  }

  /** `hours` formats `data` record by record, in the same order. */
  predicate Formats(data: seq<RawHour>, offset: int, hours: seq<FormattedHour>) {
    |hours| == |data| && forall i :: 0 <= i < |data| ==> FormatsAs(data[i], offset, hours[i])
  }

  /** `format_forcast_data`: one formatted record per raw record, appended in order. */
  method FormatForecastData(data: seq<RawHour>, offset: int)
    returns (r: Result<seq<FormattedHour>, FormatError>)
    ensures r.Success? <==> forall i :: 0 <= i < |data| ==> |data[i].weather| > 0
    ensures r.Success? ==> Formats(data, offset, r.value)
    ensures r.Failure? ==> r.error.index < |data| && |data[r.error.index].weather| == 0 &&
                           forall j :: 0 <= j < r.error.index ==> |data[j].weather| > 0
  {
    var hourList: seq<FormattedHour> := [];
    var i := 0;
    while i < |data|
      invariant 0 <= i <= |data|
      invariant Formats(data[..i], offset, hourList)
    {
      var hourObj := data[i];
      var hour := HourOfDay(hourObj.dt + offset);
      if |hourObj.weather| == 0 {
        return Failure(MissingWeather(i));
      }
      hourList := hourList + [FormattedHour(hourObj.dt, hour, hourObj.temp, hourObj.weather[0].icon, hourObj.pop)];
      i := i + 1;
    }
    assert data[..i] == data;
    return Success(hourList);
  }

  /** The temperatures of a formatted list, in order. */
  function Temps(hours: seq<FormattedHour>): (ts: seq<real>)
    ensures |ts| == |hours| && forall i :: 0 <= i < |hours| ==> ts[i] == hours[i].temp
  {
    seq(|hours|, i requires 0 <= i < |hours| => hours[i].temp)
  }

  /** Formatting copies the temperatures unchanged: the temperatures of the
      formatted list are those of the raw records, in order. */
  lemma FormatsKeepsTemps(data: seq<RawHour>, offset: int, hours: seq<FormattedHour>)
    requires Formats(data, offset, hours)
    ensures |Temps(hours)| == |data|
    ensures forall i :: 0 <= i < |data| ==> Temps(hours)[i] == data[i].temp
  {
  }

  /** The local hour of every formatted record is 0..23 and names the hour-long
      window of the local day that holds the record's time plus the offset. */
  lemma FormattedHourInWindow(data: seq<RawHour>, offset: int, hours: seq<FormattedHour>, i: int)
    requires Formats(data, offset, hours) && 0 <= i < |hours|
    ensures 0 <= hours[i].hour < 24
    ensures hours[i].hour * 3600 <= (hours[i].time + offset) % 86400 < (hours[i].hour + 1) * 3600
  {
    assert FormatsAs(data[i], offset, hours[i]);
    HourOfDayWindow(hours[i].time + offset, hours[i].hour);
  }
}
