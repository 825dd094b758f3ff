/** The layout engine: the three display bands (temperature curve with weather
    icons, precipitation bars, hour labels) as lists of drawing primitives.
    The display's width and height are parameters. */
module Layout {
  import opened Wrappers
  import opened Builtins
  import opened Icons
  import opened Forecast
  import opened Temperature

  /** What a band appends to its group: a one-tile `TileGrid` from the icon
      sheet (its tile is whatever `get_icon` returned), a text label at its
      anchored position, or a filled rectangle. */
  datatype Primitive =
    | Icon(x: int, y: int, tile: Option<int>)
    | Label(x: int, y: int, text: string)
    | Rect(x: int, y: int, w: int, h: int)

  /** A `displayio.Group` placed at (x, y) holding its primitives in append order. */
  datatype Group = Group(x: int, y: int, items: seq<Primitive>)

  /** The exceptions a band builder can raise. */
  datatype LayoutError = ZeroDivision | IndexOutOfRange | ArityMismatch

  // ---------------------------------------------------------------------
  // Column geometry, shared by the three bands
  // ---------------------------------------------------------------------

  /** `int(width / num_hours)`. */
  function ColumnWidth(width: int, numHours: int): int
    requires numHours != 0
  {
    TruncDiv(width, numHours)
  }

  /** `int(col_width*col+5)`: the left edge of column `col`. */
  function ColumnX(colWidth: int, col: int): int {
    colWidth * col + 5
  }

  /** `col * hour_step`: the position in the hour list that column `col` reads. */
  function SampleIndex(col: int, hourStep: int): int {
    col * hourStep
  }

  /** The hours that columns 0 .. n-1 read, in column order; `None` when one
      of the reads raises IndexError. */
  function Samples(hourList: seq<FormattedHour>, n: int, hourStep: int): (r: Option<seq<FormattedHour>>)
    ensures r.Some? ==> |r.value| == (if n <= 0 then 0 else n)
    decreases n
  {
    if n <= 0 then Some([])
    else match Samples(hourList, n - 1, hourStep)
      case None => None
      case Some(s) =>
        match Index(hourList, SampleIndex(n - 1, hourStep))
        case None => None
        case Some(h) => Some(s + [h])
  }

  /** With a non-negative step, every read is in range exactly when the last
      column's index is, and column `c` then reads entry `c * hour_step`. */
  lemma {:induction false} SamplesInBounds(hourList: seq<FormattedHour>, n: int, hourStep: int)
    requires n >= 1 && hourStep >= 0
    ensures Samples(hourList, n, hourStep).Some? <==> (n - 1) * hourStep < |hourList|
    ensures Samples(hourList, n, hourStep).Some? ==>
      forall c :: 0 <= c < n ==> 0 <= SampleIndex(c, hourStep) < |hourList| &&
                                 Samples(hourList, n, hourStep).value[c] == hourList[SampleIndex(c, hourStep)]
  {
    var last := (n - 1) * hourStep;
    assert 0 <= last by {
      MulNonNegative(n - 1, hourStep);
    }
    if n == 1 {
      assert Samples(hourList, 0, hourStep) == Some([]);
    } else {
      SamplesInBounds(hourList, n - 1, hourStep);
      var prev := Samples(hourList, n - 1, hourStep);
      assert last == (n - 2) * hourStep + hourStep;
      if prev.Some? && last < |hourList| {
        var s := Samples(hourList, n, hourStep).value;
        assert s == prev.value + [hourList[last]];
        assert forall c :: 0 <= c < n - 1 ==> s[c] == prev.value[c];
      }
    }
  }

  lemma MulNonNegative(a: int, b: int)
    requires a >= 0 && b >= 0
    ensures a * b >= 0
  {
  }

  /** Reading one more column extends the samples by that column's hour. */
  lemma SamplesSnoc(hourList: seq<FormattedHour>, n: int, hourStep: int, h: FormattedHour)
    requires n >= 0 && Samples(hourList, n, hourStep).Some?
    requires Index(hourList, SampleIndex(n, hourStep)) == Some(h)
    ensures Samples(hourList, n + 1, hourStep) == Some(Samples(hourList, n, hourStep).value + [h])
  {
  }

  /** Once a read fails, drawing more columns cannot succeed. */
  lemma {:induction false} SamplesStayFailed(hourList: seq<FormattedHour>, m: int, n: int, hourStep: int)
    requires m <= n && Samples(hourList, m, hourStep).None?
    ensures Samples(hourList, n, hourStep).None?
    decreases n - m
  {
    if m < n {
      SamplesStayFailed(hourList, m + 1, n, hourStep);
    }
  }

  /** Every hour a column reads is an element of the list. */
  lemma {:induction false} SamplesFromList(hourList: seq<FormattedHour>, n: int, hourStep: int)
    requires Samples(hourList, n, hourStep).Some?
    ensures forall c :: 0 <= c < |Samples(hourList, n, hourStep).value| ==>
                          Samples(hourList, n, hourStep).value[c] in hourList
    decreases n
  {
    if n > 0 {
      SamplesFromList(hourList, n - 1, hourStep);
    }
  }

  /** Neighbouring columns are exactly one column width apart, and the columns
      of a non-negative width fit in the display: the last one ends by
      `width + 5`. */
  lemma ColumnsFitDisplay(width: int, numHours: int, col: int)
    requires width >= 0 && numHours > 0 && 0 <= col < numHours
    ensures ColumnX(ColumnWidth(width, numHours), col + 1) - ColumnX(ColumnWidth(width, numHours), col)
            == ColumnWidth(width, numHours)
    ensures 0 <= ColumnWidth(width, numHours) &&
            ColumnX(ColumnWidth(width, numHours), col) + ColumnWidth(width, numHours) <= width + 5
  {
    var cw := ColumnWidth(width, numHours);
    assert cw == width / numHours;
    assert width == numHours * cw + width % numHours;
    assert cw >= 0 by {
      if cw < 0 {
        MulNonNegative(numHours, -cw);
      }
    }
    MulMonotone(cw, col + 1, numHours);
  }

  lemma MulMonotone(c: int, a: int, b: int)
    requires c >= 0 && a <= b
    ensures c * a <= c * b
  {
    MulNonNegative(c, b - a);
    assert c * b - c * a == c * (b - a);
  }

  /** Worked case: a 296-pixel display with 9 columns. */
  lemma ColumnExample()
    ensures ColumnWidth(296, 9) == 32 && ColumnX(32, 0) == 5 && ColumnX(32, 3) == 101
  {
  }

  // ---------------------------------------------------------------------
  // Per-column contents of each band
  // ---------------------------------------------------------------------

  /** Room reserved above the temperature curve for an icon (20) and its label (10). */
  const IconTempHeight := 20 + 10

  /** How far above the coldest point a temperature is plotted, scaled to the
      plot height; a flat forecast (range 0) is plotted at offset 0. */
  function TempOffset(temp: real, minTemp: real, range: real, plotHeight: int): int {
    if range == 0.0 then 0 else Plotted(temp - minTemp, range, plotHeight)
  }

  /** `int(diff / temp_range * group_height)`: the share of the range, scaled
      to the plot and truncated toward zero. */
  function Plotted(diff: real, range: real, plotHeight: int): int
    requires range != 0.0
  {
    Trunc(Scale(diff, range, plotHeight))
  }

  /** `per_height * group_height` before truncation. */
  function Scale(diff: real, range: real, plotHeight: int): real
    requires range != 0.0
  {
    diff / range * plotHeight as real
  }

  /** The offset as the source computes it: a range of 0 raises ZeroDivisionError. */
  function TempOffsetAsWritten(temp: real, minTemp: real, range: real, plotHeight: int): (r: Result<int, LayoutError>)
    ensures r.Failure? <==> range == 0.0
    ensures r.Success? ==> r.value == TempOffset(temp, minTemp, range, plotHeight)
  {
    if range == 0.0 then Failure(ZeroDivision) else Success(Plotted(temp - minTemp, range, plotHeight))
  }

  /** A temperature inside [min, min + range] is plotted inside the plot. */
  lemma TempOffsetBounds(temp: real, minTemp: real, range: real, plotHeight: int)
    requires minTemp <= temp <= minTemp + range && plotHeight >= 0
    ensures 0 <= TempOffset(temp, minTemp, range, plotHeight) <= plotHeight
  {
    if range != 0.0 {
      ScaleWithinPlot(temp - minTemp, range, plotHeight);
      TruncAtMost(Scale(temp - minTemp, range, plotHeight), plotHeight);
    }
  }

  /** A share of the range in [0, 1], scaled to the plot, lies in [0, plot height]. */
  lemma ScaleWithinPlot(diff: real, range: real, plotHeight: int)
    requires 0.0 <= diff <= range && range != 0.0 && plotHeight >= 0
    ensures 0.0 <= Scale(diff, range, plotHeight) <= plotHeight as real
  {
    FractionInUnit(diff, range);
    ScaleWithin(diff / range, plotHeight as real);
  }

  /** A share of a positive whole lies in [0, 1]. */
  lemma FractionInUnit(a: real, b: real)
    requires 0.0 <= a <= b && b != 0.0
    ensures 0.0 <= a / b <= 1.0
  {
    DivideMonotone(0.0, a, b);
    DivideMonotone(a, b, b);
    assert b / b == 1.0;
  }

  /** Dividing by a positive number keeps the order. */
  lemma DivideMonotone(a: real, c: real, b: real)
    requires a <= c && b > 0.0
    ensures a / b <= c / b
  {
    var d := (c - a) / b;
    assert d * b == c - a;
    assert d >= 0.0 by {
      SignOfQuotient(c - a, b, d);
    }
    assert c / b - a / b == d;
  }

  lemma SignOfQuotient(a: real, b: real, d: real)
    requires a >= 0.0 && b > 0.0 && d * b == a
    ensures d >= 0.0
  {
  }

  lemma ProductNonNegative(a: real, b: real)
    requires a >= 0.0 && b >= 0.0
    ensures a * b >= 0.0
  {
  }

  /** Multiplying by a non-negative number keeps the order. */
  lemma MultiplyMonotone(a: real, c: real, p: real)
    requires a <= c && p >= 0.0
    ensures a * p <= c * p
  {
    ProductNonNegative(c - a, p);
    assert c * p - a * p == (c - a) * p;
  }

  /** A fraction of a non-negative whole lies between 0 and the whole. */
  lemma ScaleWithin(q: real, p: real)
    requires 0.0 <= q <= 1.0 && p >= 0.0
    ensures 0.0 <= q * p <= p
  {
    ProductNonNegative(q, p);
    MultiplyMonotone(q, 1.0, p);
  }

  /** A warmer hour is never plotted lower than a colder one. */
  lemma TempOffsetMonotone(t1: real, t2: real, minTemp: real, range: real, plotHeight: int)
    requires t1 <= t2 && range >= 0.0 && plotHeight >= 0
    ensures TempOffset(t1, minTemp, range, plotHeight) <= TempOffset(t2, minTemp, range, plotHeight)
  {
    if range != 0.0 {
      ScaledOrder(t1 - minTemp, t2 - minTemp, range, plotHeight);
    }
  }

  /** Scaling by a positive divisor and a non-negative factor, then
      truncating, keeps the order. */
  lemma ScaledOrder(a1: real, a2: real, r: real, plotHeight: int)
    requires a1 <= a2 && r > 0.0 && plotHeight >= 0
    ensures Plotted(a1, r, plotHeight) <= Plotted(a2, r, plotHeight)
  {
    ScaleMonotone(a1, a2, r, plotHeight);
    TruncMonotone(Scale(a1, r, plotHeight), Scale(a2, r, plotHeight));
  }

  /** Scaling by a positive divisor and a non-negative factor keeps the order. */
  lemma ScaleMonotone(a1: real, a2: real, r: real, plotHeight: int)
    requires a1 <= a2 && r > 0.0 && plotHeight >= 0
    ensures Scale(a1, r, plotHeight) <= Scale(a2, r, plotHeight)
  {
    DivideMonotone(a1, a2, r);
    MultiplyMonotone(a1 / r, a2 / r, plotHeight as real);
  }

  /** `str(round(temp))`. */
  function TempText(temp: real): string {
    Str(Round(temp))
  }

  /** A temperature column: the weather icon at the plotted height, and the
      rounded temperature anchored 25 pixels below it. */
  function TempColumn(h: FormattedHour, x: int, minTemp: real, range: real, plotHeight: int): seq<Primitive> {
    var y := TempOffset(h.temp, minTemp, range, plotHeight);
    [Icon(x + 5, plotHeight - y - 2, IconLookup(h.icon)), Label(x + 10, plotHeight - y + 23, TempText(h.temp))]
  }

  /** The precipitation bar's height: `int(group_height * pop)`, raised to 1
      when it comes out 0. */
  function BarHeight(groupHeight: int, pop: real): int {
    var raw := Trunc(groupHeight as real * pop);
    if raw == 0 then 1 else raw
  }

  /** The bar is never empty: for a non-negative probability it is
      `floor(group_height * pop)` pixels, or 1 pixel where that is 0; for a
      probability in [0, 1] it fits the band. */
  lemma BarHeightBounds(groupHeight: int, pop: real)
    ensures BarHeight(groupHeight, pop) != 0
    ensures pop >= 0.0 && groupHeight >= 0 ==>
      var f := (groupHeight as real * pop).Floor;
      BarHeight(groupHeight, pop) == (if f == 0 then 1 else f) && BarHeight(groupHeight, pop) >= 1
    ensures 0.0 <= pop <= 1.0 && groupHeight >= 1 ==> BarHeight(groupHeight, pop) <= groupHeight
  {
    if pop >= 0.0 && groupHeight >= 0 {
      BarHeightValue(groupHeight, pop);
    }
    if 0.0 <= pop <= 1.0 && groupHeight >= 1 {
      BarHeightFits(groupHeight, pop);
    }
  }


  lemma BarHeightValue(groupHeight: int, pop: real)
    requires pop >= 0.0 && groupHeight >= 0
    ensures var f := (groupHeight as real * pop).Floor;
      BarHeight(groupHeight, pop) == (if f == 0 then 1 else f)
  {
    var x := groupHeight as real * pop;
    ProductNonNegative(groupHeight as real, pop);
    TruncOfNonNegative(x);
  }

  lemma BarHeightFits(groupHeight: int, pop: real)
    requires 0.0 <= pop <= 1.0 && groupHeight >= 1
    ensures BarHeight(groupHeight, pop) <= groupHeight
  {
    var x := groupHeight as real * pop;
    ScaleWithin(pop, groupHeight as real);
    assert x == pop * groupHeight as real;
    TruncAtMost(x, groupHeight);
  }

  lemma TruncOfNonNegative(x: real)
    requires x >= 0.0
    ensures Trunc(x) == x.Floor
  {
  }

  lemma TruncAtMost(x: real, n: int)
    requires 0.0 <= x <= n as real
    ensures Trunc(x) <= n
  {
  }

  /** The probability of precipitation above which a percentage label is drawn. */
  const LabelThreshold: real := 0.3

  /** `str(round(pop * 100)) + "%"`. */
  function PopText(pop: real): string {
    Str(Round(pop * 100.0)) + "%"
  }

  /** The label's x offset: 4 for a certain "100%", 7 otherwise. */
  function PopLabelOffset(pop: real): int {
    if pop == 1.0 then 4 else 7
  }

  /** A precipitation column: the bottom-anchored bar, then a percentage label
      when the probability exceeds the threshold. */
  function PrecipColumn(h: FormattedHour, x: int, colWidth: int, groupHeight: int): seq<Primitive> {
    var barHeight := BarHeight(groupHeight, h.pop);
    [Rect(x, groupHeight - barHeight, colWidth - 2, barHeight)] +
    (if h.pop > LabelThreshold then [Label(x + PopLabelOffset(h.pop), groupHeight - 10, PopText(h.pop))] else [])
  }

  /** The bar is bottom-anchored and `col_width - 2` wide, and it is followed
      by a label exactly when the probability exceeds 0.3, at x offset 4 exactly
      when the probability is 1. */
  lemma PrecipColumnShape(h: FormattedHour, x: int, colWidth: int, groupHeight: int)
    ensures var items := PrecipColumn(h, x, colWidth, groupHeight);
      (|items| == 1 || |items| == 2) &&
      items[0].Rect? && items[0].x == x && items[0].w == colWidth - 2 &&
      items[0].y + items[0].h == groupHeight && items[0].h == BarHeight(groupHeight, h.pop) &&
      (|items| == 2 <==> h.pop > 0.3) &&
      (|items| == 2 ==> items[1].Label? && items[1].y == groupHeight - 10 &&
                        (items[1].x == x + 4 <==> h.pop == 1.0) &&
                        (items[1].x != x + 4 ==> items[1].x == x + 7))
  {
  }

  /** Worked cases: a 1% chance in an 18-pixel band still gets a 1-pixel bar;
      30% gets no label and 31% gets the label "31%". */
  lemma PrecipExamples()
    ensures BarHeight(18, 0.01) == 1
    ensures BarHeight(18, 0.5) == 9
    ensures !(0.3 > LabelThreshold) && 0.31 > LabelThreshold
    ensures PopText(0.31) == "31%" && PopText(1.0) == "100%"
  {
    assert Round(31.0) == 31;
    assert Round(100.0) == 100;
  }

  /** `str(hour % 12) + "P"` after noon, `str(hour) + "A"` otherwise. */
  function HourText(hour: int): string {
    if hour > 12 then Str(hour % 12) + "P" else Str(hour) + "A"
  }

  /** Reads an hour label back: its number, plus 12 when it ends in 'P'. */
  function HourFromText(text: string): int {
    if |text| == 0 then 0
    else
      var n := ParseInt(text[..|text| - 1]);
      if text[|text| - 1] == 'P' then n + 12 else n
  }

  /** Every hour of the day reads back from its label, so the labels of
      different hours differ. */
  lemma HourTextRoundTrip(hour: int)
    requires 0 <= hour < 24
    ensures HourFromText(HourText(hour)) == hour
  {
    var text := HourText(hour);
    if hour > 12 {
      assert text[..|text| - 1] == Str(hour % 12);
      StrRoundTrip(hour % 12);
    } else {
      assert text[..|text| - 1] == Str(hour);
      StrRoundTrip(hour);
    }
  }

  lemma HourTextInjective(h1: int, h2: int)
    requires 0 <= h1 < 24 && 0 <= h2 < 24 && HourText(h1) == HourText(h2)
    ensures h1 == h2
  {
    HourTextRoundTrip(h1);
    HourTextRoundTrip(h2);
  }

  /** Worked cases, including noon, which the source labels "12A". */
  lemma HourTextExamples()
    ensures HourText(0) == "0A" && HourText(12) == "12A" && HourText(13) == "1P" && HourText(23) == "11P"
  {
  }

  /** An hour column: one label 10 pixels right of the column edge, at y = 0. */
  function HourColumn(h: FormattedHour, x: int): seq<Primitive> {
    [Label(x + 10, 0, HourText(h.hour))]
  }

  // ---------------------------------------------------------------------
  // Bands: one column's primitives after another
  // ---------------------------------------------------------------------

  /** Which band is drawn, with the values its columns share. */
  datatype Band =
    | TempBand(minTemp: real, range: real, plotHeight: int)
    | PrecipBand(colWidth: int, groupHeight: int)
    | HourBand

  function ColumnItems(band: Band, h: FormattedHour, x: int): seq<Primitive> {
    match band
    case TempBand(minTemp, range, plotHeight) => TempColumn(h, x, minTemp, range, plotHeight)
    case PrecipBand(colWidth, groupHeight) => PrecipColumn(h, x, colWidth, groupHeight)
    case HourBand => HourColumn(h, x)
  }

  /** The primitives of all columns, column 0 first; column `c` draws the
      hour `samples[c]` at `ColumnX(colWidth, c)`. */
  function BandItems(band: Band, samples: seq<FormattedHour>, colWidth: int): seq<Primitive> {
    if samples == [] then []
    else
      var c := |samples| - 1;
      BandItems(band, samples[..c], colWidth) + ColumnItems(band, samples[c], ColumnX(colWidth, c))
  }

  /** Drawing one more column appends that column's primitives. */
  lemma BandItemsSnoc(band: Band, samples: seq<FormattedHour>, h: FormattedHour, colWidth: int)
    ensures BandItems(band, samples + [h], colWidth) ==
            BandItems(band, samples, colWidth) + ColumnItems(band, h, ColumnX(colWidth, |samples|))
  {
    assert (samples + [h])[..|samples|] == samples;
  }

  /** The group a builder returns for `num_hours` columns read `hour_step` apart. */
  function BandGroup(band: Band, hourList: seq<FormattedHour>, x: int, y: int,
                     numHours: int, hourStep: int, colWidth: int): Result<Group, LayoutError> {
    match Samples(hourList, numHours, hourStep)
    case None => Failure(IndexOutOfRange)
    case Some(s) => Success(Group(x, y, BandItems(band, s, colWidth)))
  }

  /** The hour band draws one primitive per column. */
  lemma {:induction false} HourBandSize(samples: seq<FormattedHour>, colWidth: int)
    ensures |BandItems(HourBand, samples, colWidth)| == |samples|
  {
    if samples != [] {
      HourBandSize(samples[..|samples| - 1], colWidth);
    }
  }

  /** In the hour band, the item at position `c` is column `c`'s hour label. */
  lemma {:induction false} HourBandAt(samples: seq<FormattedHour>, colWidth: int, c: int)
    requires 0 <= c < |samples|
    ensures |BandItems(HourBand, samples, colWidth)| == |samples|
    ensures BandItems(HourBand, samples, colWidth)[c] == Label(ColumnX(colWidth, c) + 10, 0, HourText(samples[c].hour))
    decreases |samples|
  {
    var n := |samples| - 1;
    var prefix := samples[..n];
    HourBandSize(prefix, colWidth);
    HourBandSize(samples, colWidth);
    var prev := BandItems(HourBand, prefix, colWidth);
    var items := BandItems(HourBand, samples, colWidth);
    assert items == prev + HourColumn(samples[n], ColumnX(colWidth, n));
    if c < n {
      HourBandAt(prefix, colWidth, c);
      assert prefix[c] == samples[c];
      assert items[c] == prev[c];
    } else {
      assert items[c] == HourColumn(samples[n], ColumnX(colWidth, n))[0];
    }
  }

  /** Every column of the temperature band draws exactly two primitives. */
  lemma TempColumnSize(band: Band, h: FormattedHour, x: int)
    requires band.TempBand?
    ensures |ColumnItems(band, h, x)| == 2
  {
  }

  /** The temperature band draws two primitives per column. */
  lemma {:induction false} TempBandSize(band: Band, samples: seq<FormattedHour>, colWidth: int)
    requires band.TempBand?
    ensures |BandItems(band, samples, colWidth)| == 2 * |samples|
  {
    if samples != [] {
      var n := |samples| - 1;
      TempBandSize(band, samples[..n], colWidth);
      TempColumnSize(band, samples[n], ColumnX(colWidth, n));
    }
  }

  /** In the temperature band, positions `2c` and `2c + 1` hold column `c`'s
      weather icon at the plotted height and its temperature label 25 pixels
      below. */
  lemma TempBandAt(minTemp: real, range: real, plotHeight: int,
                   samples: seq<FormattedHour>, colWidth: int, c: int)
    requires 0 <= c < |samples|
    ensures var items := BandItems(TempBand(minTemp, range, plotHeight), samples, colWidth);
      var x := ColumnX(colWidth, c);
      var y := TempOffset(samples[c].temp, minTemp, range, plotHeight);
      |items| == 2 * |samples| &&
      items[2 * c] == Icon(x + 5, plotHeight - y - 2, IconLookup(samples[c].icon)) &&
      items[2 * c + 1] == Label(x + 10, plotHeight - y + 23, TempText(samples[c].temp))
  {
    var band := TempBand(minTemp, range, plotHeight);
    PairedBandAt(band, samples, colWidth, c);
    var column := ColumnItems(band, samples[c], ColumnX(colWidth, c));
    assert column == TempColumn(samples[c], ColumnX(colWidth, c), minTemp, range, plotHeight);
  }

  /** In the temperature band, positions `2c` and `2c + 1` hold the two
      primitives of column `c`. */
  lemma {:induction false} PairedBandAt(band: Band, samples: seq<FormattedHour>, colWidth: int, c: int)
    requires band.TempBand? && 0 <= c < |samples|
    ensures var items := BandItems(band, samples, colWidth);
      var column := ColumnItems(band, samples[c], ColumnX(colWidth, c));
      |items| == 2 * |samples| && |column| == 2 &&
      items[2 * c] == column[0] && items[2 * c + 1] == column[1]
    decreases |samples|
  {
    var n := |samples| - 1;
    var prefix := samples[..n];
    TempBandSize(band, prefix, colWidth);
    TempBandSize(band, samples, colWidth);
    TempColumnSize(band, samples[c], ColumnX(colWidth, c));
    var prev := BandItems(band, prefix, colWidth);
    var last := ColumnItems(band, samples[n], ColumnX(colWidth, n));
    var items := BandItems(band, samples, colWidth);
    assert items == prev + last;
    if c < n {
      PairedBandAt(band, prefix, colWidth, c);
      assert prefix[c] == samples[c];
      assert items[2 * c] == prev[2 * c] && items[2 * c + 1] == prev[2 * c + 1];
    } else {
      assert items[2 * c] == last[0] && items[2 * c + 1] == last[1];
    }
  }


  /** The number of hours whose probability of precipitation exceeds the label threshold. */
  function CountLabelled(samples: seq<FormattedHour>): nat {
    if samples == [] then 0
    else CountLabelled(samples[..|samples| - 1]) + (if samples[|samples| - 1].pop > LabelThreshold then 1 else 0)
  }

  /** The precipitation band holds one bar per column and one label per
      column above the threshold. */
  lemma {:induction false} PrecipBandSize(samples: seq<FormattedHour>, colWidth: int, groupHeight: int)
    ensures |BandItems(PrecipBand(colWidth, groupHeight), samples, colWidth)| == |samples| + CountLabelled(samples)
  {
    if samples != [] {
      PrecipBandSize(samples[..|samples| - 1], colWidth, groupHeight);
    }
  }

  // ---------------------------------------------------------------------
  // The three builders
  // ---------------------------------------------------------------------

  /** Every hour a column samples is plotted inside the temperature plot:
      its temperature lies in [min, min + range] of the whole list, so its
      offset lies in [0, plot height]. */
  lemma SampledTempInPlot(hourList: seq<FormattedHour>, n: int, hourStep: int, groupHeight: int, c: int)
    requires Samples(hourList, n, hourStep).Some? && 0 <= c < |Samples(hourList, n, hourStep).value|
    requires groupHeight >= IconTempHeight
    ensures var band := TempBandOf(hourList, groupHeight);
      var t := Samples(hourList, n, hourStep).value[c].temp;
      band.minTemp <= t <= band.minTemp + band.range &&
      0 <= TempOffset(t, band.minTemp, band.range, band.plotHeight) <= band.plotHeight
  {
    var s := Samples(hourList, n, hourStep).value;
    var band := TempBandOf(hourList, groupHeight);
    SamplesFromList(hourList, n, hourStep);
    assert s[c] in hourList;
    var k :| 0 <= k < |hourList| && hourList[k] == s[c];
    TempRangeBounds(Temps(hourList));
    assert Temps(hourList)[k] == s[c].temp;
    TempOffsetBounds(s[c].temp, band.minTemp, band.range, band.plotHeight);
  }

  /** A flat forecast: when every listed temperature is the same value t in
      [0, 100], the range is 0, so the source's offset computation raises
      ZeroDivisionError for every column, while the corrected offset is 0. */
  lemma FlatForecastRaises(hourList: seq<FormattedHour>, groupHeight: int, t: real)
    requires |hourList| > 0 && 0.0 <= t <= 100.0
    requires forall i :: 0 <= i < |hourList| ==> hourList[i].temp == t
    ensures var band := TempBandOf(hourList, groupHeight);
      band.range == 0.0 && band.minTemp == t &&
      TempOffsetAsWritten(t, band.minTemp, band.range, band.plotHeight) == Failure(ZeroDivision) &&
      TempOffset(t, band.minTemp, band.range, band.plotHeight) == 0
  {
    var temps := Temps(hourList);
    assert temps[0] == t;
    ZeroRangeExactly(temps);
    TempRangeBounds(temps);
  }

  /** The appends `build_temp_group` makes for one column: the icon at the
      plotted height, then the temperature label below it. */
  method AppendTempColumn(items: seq<Primitive>, hour: FormattedHour, colX: int,
                          minTemp: real, range: real, plotHeight: int) returns (r: seq<Primitive>)
    ensures r == items + ColumnItems(TempBand(minTemp, range, plotHeight), hour, colX)
  {
    var offset := TempOffset(hour.temp, minTemp, range, plotHeight);
    var tempText := TempText(hour.temp);
    var tile := GetIcon(hour.icon);
    r := items + [Icon(colX + 5, plotHeight - offset - 2, tile)];
    r := r + [Label(colX + 10, plotHeight - offset + 23, tempText)];
  }

  /** The appends `build_precip_display` makes for one column: the bar, then
      the percentage label when the probability exceeds the threshold. */
  method AppendPrecipColumn(items: seq<Primitive>, hour: FormattedHour, colX: int,
                            colWidth: int, groupHeight: int) returns (r: seq<Primitive>)
    ensures r == items + PrecipColumn(hour, colX, colWidth, groupHeight)
  {
    var rectHeight := BarHeight(groupHeight, hour.pop);
    var popY := groupHeight - rectHeight;
    r := items + [Rect(colX, popY, colWidth - 2, rectHeight)];
    if hour.pop > LabelThreshold {
      r := r + [Label(colX + PopLabelOffset(hour.pop), groupHeight - 10, PopText(hour.pop))];
    }
  }

  /** `build_temp_group` as written: it calls `get_temp_range(hour_list, 24)`,
      passing two arguments to a one-parameter function, so it raises
      TypeError before any column is drawn (the column width's division, which
      comes first, raises instead when there are no columns). */
  function BuildTempGroupAsWritten(hourList: seq<FormattedHour>, x: int, y: int, groupHeight: int,
                                   numHours: int, hourStep: int, width: int): (r: Result<Group, LayoutError>)
    ensures r.Failure? && (numHours != 0 ==> r.error == ArityMismatch)
    ensures numHours == 0 ==> r == Failure(ZeroDivision)
  {
    if numHours == 0 then Failure(ZeroDivision) else Failure(ArityMismatch)
  }

  /** The temperature band's shared values, taken over all listed
      temperatures (not only the sampled ones): the least of 100 and those
      temperatures, the greatest of 0 and those temperatures minus that
      least, and the plot height. */
  function TempBandOf(hourList: seq<FormattedHour>, groupHeight: int): Band {
    var lo := FoldMin(Temps(hourList));
    TempBand(lo, FoldMax(Temps(hourList)) - lo, groupHeight - IconTempHeight)
  }

  /** The vertical scale `build_temp_group` computes before its loop: the
      temperature range of the list and the height left for the curve. */
  method TempScale(hourList: seq<FormattedHour>, groupHeight: int)
    returns (minTemp: real, tempRange: real, plotHeight: int)
    ensures TempBand(minTemp, tempRange, plotHeight) == TempBandOf(hourList, groupHeight)
  {
    minTemp, tempRange := GetTempRange(Temps(hourList));
    plotHeight := groupHeight - IconTempHeight;
  }

  /** `build_temp_group` with the temperature range taken over its own list
      and a flat forecast plotted at offset 0. */
  method BuildTempGroup(hourList: seq<FormattedHour>, x: int, y: int, groupHeight: int,
                        numHours: int, hourStep: int, width: int) returns (r: Result<Group, LayoutError>)
    ensures numHours == 0 ==> r == Failure(ZeroDivision)
    ensures numHours != 0 ==>
      r == BandGroup(TempBandOf(hourList, groupHeight), hourList, x, y, numHours, hourStep, ColumnWidth(width, numHours))
  {
    if numHours == 0 {
      return Failure(ZeroDivision);
    }
    var colWidth := TruncDiv(width, numHours);
    var minTemp, tempRange, plotHeight := TempScale(hourList, groupHeight);
    ghost var band := TempBand(minTemp, tempRange, plotHeight);
    var items: seq<Primitive> := [];
    ghost var samples: seq<FormattedHour> := [];
    var col := 0;
    while col < numHours
      invariant 0 <= col && (col <= numHours || col == 0)
      invariant Samples(hourList, col, hourStep) == Some(samples) && |samples| == col
      invariant items == BandItems(band, samples, colWidth)
    {
      var hourIndex := SampleIndex(col, hourStep);
      var colX := ColumnX(colWidth, col);
      var entry := Index(hourList, hourIndex);
      if entry.None? {
        SamplesStayFailed(hourList, col + 1, numHours, hourStep);
        return Failure(IndexOutOfRange);
      }
      var hour := entry.value;
      items := AppendTempColumn(items, hour, colX, minTemp, tempRange, plotHeight);
      BandItemsSnoc(band, samples, hour, colWidth);
      SamplesSnoc(hourList, col, hourStep, hour);
      samples := samples + [hour];
      col := col + 1;
    }
    return Success(Group(x, y, items));
  }

  /** `build_precip_display`. */
  method BuildPrecipDisplay(hourList: seq<FormattedHour>, x: int, y: int, groupHeight: int,
                            numHours: int, hourStep: int, width: int) returns (r: Result<Group, LayoutError>)
    ensures numHours == 0 ==> r == Failure(ZeroDivision)
    ensures numHours != 0 ==>
      var colWidth := ColumnWidth(width, numHours);
      r == BandGroup(PrecipBand(colWidth, groupHeight), hourList, x, y, numHours, hourStep, colWidth)
  {
    if numHours == 0 {
      return Failure(ZeroDivision);
    }
    var colWidth := TruncDiv(width, numHours);
    ghost var band := PrecipBand(colWidth, groupHeight);
    var items: seq<Primitive> := [];
    ghost var samples: seq<FormattedHour> := [];
    var col := 0;
    while col < numHours
      invariant 0 <= col && (col <= numHours || col == 0)
      invariant Samples(hourList, col, hourStep) == Some(samples) && |samples| == col
      invariant items == BandItems(band, samples, colWidth)
    {
      var hourIndex := SampleIndex(col, hourStep);
      var colX := ColumnX(colWidth, col);
      var entry := Index(hourList, hourIndex);
      if entry.None? {
        SamplesStayFailed(hourList, col + 1, numHours, hourStep);
        return Failure(IndexOutOfRange);
      }
      var hour := entry.value;
      items := AppendPrecipColumn(items, hour, colX, colWidth, groupHeight);
      BandItemsSnoc(band, samples, hour, colWidth);
      SamplesSnoc(hourList, col, hourStep, hour);
      samples := samples + [hour];
      col := col + 1;
    }
    return Success(Group(x, y, items));
  }

  /** `build_hour_group`. */
  method BuildHourGroup(hourList: seq<FormattedHour>, x: int, y: int, groupHeight: int,
                        numHours: int, hourStep: int, width: int) returns (r: Result<Group, LayoutError>)
    ensures numHours == 0 ==> r == Failure(ZeroDivision)
    ensures numHours != 0 ==>
      r == BandGroup(HourBand, hourList, x, y, numHours, hourStep, ColumnWidth(width, numHours))
  {
    if numHours == 0 {
      return Failure(ZeroDivision);
    }
    var colWidth := TruncDiv(width, numHours);
    var items: seq<Primitive> := [];
    ghost var samples: seq<FormattedHour> := [];
    var col := 0;
    while col < numHours
      invariant 0 <= col && (col <= numHours || col == 0)
      invariant Samples(hourList, col, hourStep) == Some(samples) && |samples| == col
      invariant items == BandItems(HourBand, samples, colWidth)
    {
      var hourIndex := SampleIndex(col, hourStep);
      var colX := ColumnX(colWidth, col);
      var entry := Index(hourList, hourIndex);
      if entry.None? {
        SamplesStayFailed(hourList, col + 1, numHours, hourStep);
        return Failure(IndexOutOfRange);
      }
      var hourText := HourText(entry.value.hour);
      items := items + [Label(colX + 10, 0, hourText)];
      BandItemsSnoc(HourBand, samples, entry.value, colWidth);
      SamplesSnoc(hourList, col, hourStep, entry.value);
      samples := samples + [entry.value];
      col := col + 1;
    }
    return Success(Group(x, y, items));
  }
}
