/** The script's main section: the three bands stacked on the display, with
    nine columns two hours apart. */
module Screen {
  import opened Wrappers
  import opened Forecast
  import opened Layout

  const NumHours := 9
  const HourStep := 2
  const PopHeight := 18
  const HourHeight := 16

  /** `int(height - pop_height - hour_height) + 2`: the temperature band's height. */
  function TempHeight(height: int): int {
    height - PopHeight - HourHeight + 2
  }

  /** Builds the temperature, precipitation and hour bands in that order, the
      first at the top of the display, the second right below it and the third
      4 pixels lower still; a builder that raises ends the run. */
  method BuildScreen(hourList: seq<FormattedHour>, width: int, height: int)
    returns (r: Result<seq<Group>, LayoutError>)
    ensures r.Success? <==> |hourList| >= (NumHours - 1) * HourStep + 1
    ensures r.Failure? ==> r.error == IndexOutOfRange
    ensures r.Success? ==>
      var tempHeight := TempHeight(height);
      var colWidth := ColumnWidth(width, NumHours);
      var samples := Samples(hourList, NumHours, HourStep).value;
      r.value == [Group(0, 0, BandItems(TempBandOf(hourList, tempHeight), samples, colWidth)),
                  Group(0, tempHeight, BandItems(PrecipBand(colWidth, PopHeight), samples, colWidth)),
                  Group(0, tempHeight + PopHeight + 4, BandItems(HourBand, samples, colWidth))]
  {
    ScreenSamplesDefined(hourList);
    var tempHeight := TempHeight(height);
    var tempGroup := BuildTempGroup(hourList, 0, 0, tempHeight, NumHours, HourStep, width);
    if tempGroup.Failure? {
      return Failure(tempGroup.error);
    }
    var bands := StackBands(hourList, tempGroup.value, tempHeight, width);
    return Success(bands);
  }

  /** The nine columns two hours apart can all be read exactly when the list
      holds at least 17 hours. */
  lemma ScreenSamplesDefined(hourList: seq<FormattedHour>)
    ensures Samples(hourList, NumHours, HourStep).Some? <==> |hourList| >= (NumHours - 1) * HourStep + 1
  {
    SamplesInBounds(hourList, NumHours, HourStep);
  }

  /** Stacks the precipitation and hour bands below a built temperature band
      of height `tempHeight`. They read the same columns as the temperature
      band, so once that band has been built neither of them raises. */
  method StackBands(hourList: seq<FormattedHour>, tempGroup: Group, tempHeight: int, width: int)
    returns (bands: seq<Group>)
    requires Samples(hourList, NumHours, HourStep).Some?
    ensures
      var colWidth := ColumnWidth(width, NumHours);
      var samples := Samples(hourList, NumHours, HourStep).value;
      bands == [tempGroup,
                Group(0, tempHeight, BandItems(PrecipBand(colWidth, PopHeight), samples, colWidth)),
                Group(0, tempHeight + PopHeight + 4, BandItems(HourBand, samples, colWidth))]
  {
    var precipGroup := BuildPrecipDisplay(hourList, 0, tempHeight, PopHeight, NumHours, HourStep, width);
    var hourGroup := BuildHourGroup(hourList, 0, tempHeight + PopHeight + 4, HourHeight, NumHours, HourStep, width);
    bands := [tempGroup, precipGroup.value, hourGroup.value];
  }

  /** The main section as written: its first call, `build_temp_group`, raises
      TypeError whatever the forecast, so nothing is drawn. */
  function BuildScreenAsWritten(hourList: seq<FormattedHour>, width: int, height: int): (r: Result<seq<Group>, LayoutError>)
    ensures r == Failure(ArityMismatch)
  {
    match BuildTempGroupAsWritten(hourList, 0, 0, TempHeight(height), NumHours, HourStep, width)
    case Failure(e) => Failure(e)
    case Success(g) => Success([g])
  }

  /** On a 296 x 128 display the bands are 96, 18 and 16 pixels high, at
      y = 0, 96 and 118, with columns 32 pixels wide. */
  lemma ScreenGeometryExample()
    ensures TempHeight(128) == 96 && TempHeight(128) + PopHeight + 4 == 118
    ensures ColumnWidth(296, NumHours) == 32
  {
  }
}
