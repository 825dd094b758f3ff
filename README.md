# MagTag weather display — a Dafny model

`code.py` is a CircuitPython script for an e-paper MagTag board. Each time it
wakes it is meant to do the following:

1. It fetches an hourly OpenWeather "One Call" forecast.
2. It formats each hourly record as `{time, hour, temp, icon, pop}`.
3. It draws three bands on the display:
   - a temperature curve with a weather icon and a rounded temperature per column;
   - probability-of-precipitation bars, with a percentage label above 30 %;
   - 12-hour labels ("0A" … "11P").

   There are nine columns, two hours apart.
4. It computes how long to deep-sleep: until 06:00 at night, otherwise until the top of the next odd hour.

As written, the main section raises TypeError at its first band (see "## Findings"), so nothing is drawn and the deep sleep is never reached.

This project models that logic and proves properties of it. The modules are:

| module | file | models |
|---|---|---|
| `Wrappers` | wrappers.dfy | `Option` and `Result`, used for Python's `None` and for raised exceptions |
| `Builtins` | builtins.dfy | the Python built-ins the script relies on: clamped slices, negative indexing, `int()` truncating toward zero, `round()` half-to-even, `str()` of an integer |
| `Clock` | clock.dfy | the hour and minute fields of `time.localtime`, on epoch seconds |
| `Icons` | icons.dfy | `ICON_MAP` and `get_icon` |
| `Url` | url.dfy | `get_data_source_url` |
| `Forecast` | forecast.dfy | `format_forcast_data` |
| `Temperature` | temperature.dfy | `get_temp_range` |
| `Layout` | layout.dfy | the three band builders; primitives stand in for the drawing objects |
| `Sleep` | sleep.dfy | the sleep arithmetic of `go_to_sleep` |
| `Screen` | screen.dfy | the main section's band sizes and the three builder calls |

The source's step-by-step code is modelled as methods, with loop invariants where the source loops. Each method is proved against a specification function:
- `GetIcon` scans the table with an early return.
- `GetDataSourceUrl` grows the URL with `+=`.
- `FormatForecastData` appends one record per raw record.
- `GetTempRange` updates two accumulators.
- `BuildTempGroup`, `BuildPrecipDisplay` and `BuildHourGroup` append primitives column by column.

The per-column arithmetic, the hour-label text and the sleep branches are plain expressions in the source, so they are functions here.

A band is specified by `Layout.BandItems`, the primitives of its columns in order. Each builder returns exactly `Layout.BandGroup`:
- it fails with IndexError when a sampled index is out of range;
- otherwise it returns a group holding `BandItems`.

Lemmas then state what each position of a band holds, the band's size, and where each primitive lies.

Three behaviours of the source worth knowing:

- Hour 12 is labelled "12A" (code.py:287-290), because the test is `hour > 12`.
- At 21:10 the script sleeps 530 minutes, i.e. 31800 s (code.py:306), until 06:00 the next day.
- A precipitation bar is at least 1 pixel even when the probability is exactly 0 (code.py:234-236).

## Model

| member | source | states |
|---|---|---|
| Builtins.Slice | code.py:46-49 | `s[i:j]` clamps out-of-range bounds: its length is given by the clamping rule, and element `k` is `s[i + k]` |
| Builtins.Index | code.py:179 | `s[i]` succeeds exactly when `-len(s) <= i < len(s)`; a non-negative index reads `s[i]` and a negative one reads `s[len(s) + i]` |
| Builtins.TruncDiv | code.py:168 | `int(a / b)` is Euclidean division for non-negative operands, and is non-negative when the signs agree |
| Builtins.Trunc | code.py:181 | `int(x)` truncates toward zero: floor for `x >= 0`, ceiling for `x < 0` |
| Builtins.TruncMonotone | code.py:181 | `int()` is monotone |
| Builtins.RoundNearest | code.py:183 | `round(x)` is within 1/2 of `x`, and a tie goes to the even integer |
| Builtins.RoundWhole | code.py:183 | `round` of a whole number is that number |
| Builtins.NatToStringDigits | code.py:183 | `str(n)` of a natural number is a non-empty string of digits with no leading zero |
| Builtins.StrDigits | code.py:183 | `str(n)` is digits, preceded by '-' exactly for a negative `n` |
| Builtins.ParseNatToString | code.py:183 | reading `str(n)` back gives `n`, for natural numbers |
| Builtins.StrRoundTrip | code.py:288-290 | `int(str(n)) == n` for every integer |
| Builtins.StrInjective | code.py:288-290 | distinct integers print differently |
| Clock.HourOfDay | code.py:108-110 | the local hour is always in 0..23 |
| Clock.MinuteOfHour | code.py:302 | the minute is always in 0..59 |
| Clock.HourOfDayWindow | code.py:108-110 | the hour is `h` exactly when the time of day lies in `[h*3600, (h+1)*3600)` |
| Clock.TimeOfDayFields | code.py:302 | the time of day is `hour*3600 + minute*60 + second` |
| Icons.FirstMatchSpec | code.py:45-50 | the scan returns `None` exactly when no key matches, and otherwise the tile of a matching key with no match before it |
| Icons.GetIcon | code.py:31-50 | the loop with early return computes the first-match lookup over `ICON_MAP` in written order |
| Icons.ExclusiveKeysNeverBothMatch | code.py:46-50 | no code matches two keys whose prefixes differ, or whose two literal suffixes differ |
| Icons.IconKeysExclusive | code.py:21 | every two `ICON_MAP` keys are exclusive in that sense |
| Icons.MatchingEntryUnique | code.py:21 | at most one `ICON_MAP` entry matches any code |
| Icons.IconLookupAt | code.py:45-50 | if entry `k` matches, the lookup returns entry `k`'s tile |
| Icons.IconLookupOrderFree | code.py:45-50 | any iteration order of the same entries returns the same result |
| Icons.OpenWeatherCodesResolve | code.py:21 | every OpenWeather code (01, 02, 03, 04, 09, 10, 11, 13, 50, each with 'd' or 'n') resolves to a tile, never `None` |
| Icons.IconLookupExamples | code.py:21 | "01d" gives 0; "01n" gives 9, passing over "01d"; "09d" and "09n" give 4 via "09X" |
| Icons.IconLookupUnknown | code.py:45-50 | an unknown prefix ("99z") gives `None` |
| Url.GetDataSourceUrl | code.py:69-74 | the URL is the endpoint, then `&lat=`, `&lon=`, `&units=imperial` and `&appid=` with the token; it starts with the endpoint and ends with the token |
| Url.QueryUrlLatitude | code.py:70 | the latitude appears right after `&lat=` |
| Url.QueryUrlLongitude | code.py:71 | the longitude appears right after the latitude and `&lon=` |
| Url.QueryUrlToken | code.py:74 | the URL's length, and that it ends with `&appid=` and the token |
| Url.QueryUrlDeterminesToken | code.py:74 | for fixed coordinates, different tokens give different URLs |
| Forecast.FormatForecastData | code.py:85-116 | succeeds exactly when every record has a weather entry; then the output has the same length and order, each record copies dt, temp and pop, takes the first weather icon, and has the local hour; otherwise it names the first record with an empty weather list |
| Forecast.FormatsKeepsTemps | code.py:111 | the formatted list has one temperature per raw record, and the `i`-th is the `i`-th raw record's `temp` |
| Forecast.FormattedHourInWindow | code.py:108-110 | every formatted hour is in 0..23 and names the hour-long window holding `dt + offset` |
| Temperature.FoldMax | code.py:131-139 | the running maximum is at least the sentinel 0, bounds every temperature, and is 0 or one of the temperatures |
| Temperature.FoldMin | code.py:132-139 | the running minimum is at most the sentinel 100, is bounded by every temperature, and is 100 or one of the temperatures |
| Temperature.GetTempRange | code.py:118-141 | the loop returns the folded minimum, and a range that adds up to the folded maximum |
| Temperature.TempRangeBounds | code.py:118-141 | every temperature lies in `[min, min + range]`; a non-empty list has `range >= 0` |
| Temperature.SentinelsShowThrough | code.py:131-132 | `min <= 100` and `max >= 0`; temperatures all at or above 100 report `min = 100`; the empty list gives `(100, -100)` |
| Temperature.ZeroRangeExactly | code.py:135-141 | a non-empty list has range 0 exactly when all its temperatures are one value in [0, 100] |
| Temperature.TempRangeExample | code.py:118-141 | 40, 50, 60 give minimum 40 and range 20 |
| Layout.Samples | code.py:176-179 | with the reads succeeding, there is one sampled hour per column |
| Layout.SamplesInBounds | code.py:175-179 | for a non-negative `hour_step`, every read succeeds exactly when `(num_hours - 1) * hour_step < len(hour_list)`, and column `c` then reads `hour_list[c * hour_step]` |
| Layout.SamplesSnoc | code.py:175-179 | one more successful read extends the samples by that hour |
| Layout.SamplesStayFailed | code.py:175-179 | once a read fails, no longer run succeeds |
| Layout.SamplesFromList | code.py:176-179 | every sampled hour is an element of the list |
| Layout.ColumnsFitDisplay | code.py:168-177 | neighbouring columns are exactly `col_width` apart, `col_width >= 0`, and the last column ends by `width + 5` |
| Layout.ColumnExample | code.py:168-177 | width 296 with 9 columns gives `col_width` 32, `x0 = 5` and `x3 = 101` |
| Layout.TempOffsetAsWritten | code.py:179-181 | the source's offset raises ZeroDivisionError exactly when the range is 0, and otherwise equals the corrected offset |
| Layout.TempOffsetBounds | code.py:179-181 | a temperature in `[min, min + range]` is plotted within `[0, group_height - 30]` |
| Layout.TempOffsetMonotone | code.py:179-181 | a warmer hour is never plotted lower |
| Layout.BarHeightBounds | code.py:234-236 | the bar is never 0 pixels; for `pop >= 0` it is exactly `floor(group_height * pop)`, or 1 where that is 0; for `0 <= pop <= 1` it is at most `group_height` |
| Layout.PrecipColumnShape | code.py:234-251 | the bar is bottom-anchored, `col_width - 2` wide and `BarHeight` tall; a label follows exactly when `pop > 0.3`, at y `group_height - 10`, with x offset 4 exactly when `pop == 1` and 7 otherwise |
| Layout.PrecipExamples | code.py:234-251 | a 1 % chance still gets a 1-pixel bar; 50 % in 18 pixels gives 9; 0.3 gets no label and 0.31 gets "31%"; 1.0 gives "100%" |
| Layout.HourTextRoundTrip | code.py:286-290 | every hour 0..23 can be read back from its label |
| Layout.HourTextInjective | code.py:286-290 | different hours of the day get different labels |
| Layout.HourTextExamples | code.py:286-290 | 0 gives "0A", 12 gives "12A", 13 gives "1P", 23 gives "11P" |
| Layout.BandItemsSnoc | code.py:196-204 | drawing one more column appends exactly that column's primitives |
| Layout.HourBandSize | code.py:281-295 | the hour band holds one primitive per column |
| Layout.HourBandAt | code.py:281-295 | item `c` of the hour band is column `c`'s label, at `(x + 10, 0)` |
| Layout.TempBandSize | code.py:175-204 | the temperature band holds two primitives per column |
| Layout.TempBandAt | code.py:175-204 | items `2c` and `2c+1` are column `c`'s icon at `(x + 5, plot_height - y - 2)` with the `get_icon` tile, and its rounded temperature at `(x + 10, plot_height - y + 23)` |
| Layout.PrecipBandSize | code.py:229-251 | the precipitation band holds one bar per column, plus one label per column above 0.3 |
| Layout.SampledTempInPlot | code.py:169-181 | every sampled temperature lies in the range of the whole list, so it is plotted within the plot |
| Layout.FlatForecastRaises | code.py:169-181 | when every temperature is the same value in [0, 100], the range is 0; the source's offset raises ZeroDivisionError and the corrected offset is 0 |
| Layout.AppendTempColumn | code.py:179-204 | one column's appends are its icon, then its temperature label |
| Layout.AppendPrecipColumn | code.py:233-251 | one column's appends are its bar, then a label above the threshold |
| Layout.BuildTempGroupAsWritten | code.py:168-169 | the temperature builder as written always raises: TypeError from the two-argument call, or ZeroDivisionError first when there are no columns |
| Layout.TempScale | code.py:169-173 | the minimum is the least of 100 and the list's temperatures, the range is the greatest of 0 and those temperatures minus that minimum, and the plot height is `group_height - 30` |
| Layout.BuildTempGroup | code.py:144-206 | the corrected temperature builder returns exactly the band group: IndexError when a sampled index is out of range, ZeroDivisionError for 0 columns |
| Layout.BuildPrecipDisplay | code.py:208-253 | the precipitation builder returns exactly the band group, with the same failures |
| Layout.BuildHourGroup | code.py:256-297 | the hour builder returns exactly the band group, with the same failures |
| Sleep.SleepSeconds | code.py:299-312 | for a valid time the sleep is a positive number of whole minutes. After 20:59 it ends at 06:00 the next day; before 06:00 it ends at 06:00; otherwise it ends at the top of an odd hour, 60..7200 s later |
| Sleep.SleepExamples | code.py:305-312 | 21:10 gives 31800 s, 02:00 gives 14400 s, 13:15 gives 6300 s |
| Sleep.SleepIgnoresSeconds | code.py:302 | the seconds field of the time does not affect the sleep |
| Sleep.WakeOffset | code.py:302-312 | the instant the sleep ends, `t + seconds_to_sleep`, is the start of the local day of `t`, plus the minute of day at which the sleep ends, plus the seconds field of `t` |
| Sleep.WakeAtSix | code.py:304-309 | after a run at 21:00 or later, or before 06:00, the sleep ends at 06:00 local time plus the seconds field of `t` |
| Sleep.WakeAtOddHour | code.py:310-312 | after a run from 06:00 to 20:59, the sleep ends at the top of an odd hour plus the seconds field of `t` |
| Sleep.WakeTime | code.py:304-312 | on epoch seconds, the sleep ends at 06:00 after an evening or night run and otherwise at the top of an odd hour, each plus the seconds field of `t`. This is counted from `t`, the fetched time, not from the moment the sleep starts |
| Screen.BuildScreen | code.py:338-349 | with the corrected builder, the screen is drawn exactly when the list has at least 17 hours. The bands are at y = 0, `temp_height` and `temp_height + 22`, over the same nine sampled columns; otherwise IndexError |
| Screen.ScreenSamplesDefined | code.py:338-339 | the nine columns two hours apart can all be read exactly when the list holds at least 17 hours |
| Screen.StackBands | code.py:348-349 | once the temperature band is built, the precipitation band at y = `temp_height` and the hour band 22 pixels lower follow without raising, over the same sampled columns |
| Screen.BuildScreenAsWritten | code.py:347 | the main section as written always raises TypeError before drawing |
| Screen.ScreenGeometryExample | code.py:338-344 | a 296 x 128 display gives a 96-pixel temperature band, with the hour band at y = 118 and 32-pixel columns |

## Left out

- Network and JSON: `get_forecast` (code.py:77-83) is not modelled. The formatter takes the decoded hourly records as a typed sequence, so a record missing a key cannot be expressed. Only an empty "weather" list is modelled as an error (IndexError).
- The `secrets` module and the `Fake_Requests` import: the token, latitude and longitude are parameters. `Url.GetDataSourceUrl` takes the coordinates already formatted; the float formatting of `"{}".format` is not modelled.
- Rendering (code.py:26, 186-204, 239-251, 351-353): the image load, `TileGrid`, `Label`, `Rect`, `group.append` and `magtag.splash` are not modelled. They are represented only as `Icon`, `Label` and `Rect` primitive records in a `Group`. The display's width and height are parameters.
- The display refresh, the `time.sleep` waits, `magtag.exit_and_deep_sleep` and the `print` lines (code.py:314-319, 330, 357-363): these are I/O and power control. Only the number of seconds to sleep is modelled.
- Floating point: floats are modelled as exact reals. `round()` and `int()` are applied to the exact value, so IEEE rounding of `diff / temp_range`, `group_height * pop` and `pop * 100` is not captured.
- Calendar: `time.localtime` is modelled as whole 86400-second days on the local epoch seconds. There is no calendar and no leap seconds.
- `get_temp_range` reads the global `forecast_data` rather than its parameter (code.py:135). The model folds over the formatted list's temperatures. `Forecast.FormatsKeepsTemps` proves these are the raw records' temperatures in order, so the result is the same.
- Wake drift: `go_to_sleep` is given `current.dt` plus the time-zone offset as fetched (code.py:83, 333, 363). The display refresh waits (code.py:358-360) and the computation before them pass before the sleep starts. The real wake-up is therefore later than the instant `Sleep.WakeTime` names by that elapsed time. The model has no clock, so this drift is not modelled.
- The `None` tile: a `None` tile from `get_icon` is stored in the icon primitive as written (code.py:198). What the display library does with it is not modelled. `Icons.OpenWeatherCodesResolve` shows it can only happen for a code outside OpenWeather's set.
- Dict iteration order: `ICON_MAP` is scanned in written order. `Icons.IconLookupOrderFree` shows that no other order changes the result.

## Findings

| source | as written | input that shows it | evidently intended | confidence | as-written member | corrected member |
|---|---|---|---|---|---|---|
| code.py:169 | `get_temp_range(hour_list, 24)` passes two arguments to a one-parameter function (code.py:118), so `build_temp_group` raises TypeError: nothing is drawn, and `go_to_sleep` (code.py:363) is never reached, so the device never deep-sleeps | any forecast, e.g. the 48-hour list the API returns | call `get_temp_range(hour_list)` and scale over the list's own temperatures | not executed | Screen.BuildScreenAsWritten | Screen.BuildScreen |
| code.py:180 | `diff / temp_range` divides by a range that is 0 for a flat forecast | every listed temperature equal to 70.0 (reached once code.py:169 is fixed) | a flat forecast is plotted at offset 0 | not executed | Layout.FlatForecastRaises | Layout.TempOffsetBounds |
