/** `get_temp_range`: the minimum temperature and the spread above it, found
    by a fold that starts from the sentinels max = 0 and min = 100. */
module Temperature {

  const MaxSentinel: real := 0.0
  const MinSentinel: real := 100.0

  /** The running maximum after the whole list: raised whenever a larger value appears. */
  function FoldMax(temps: seq<real>): (m: real)
    ensures m >= MaxSentinel
    ensures forall k :: 0 <= k < |temps| ==> temps[k] <= m
    ensures m == MaxSentinel || m in temps
  {
    if temps == [] then MaxSentinel
    else
      var prev := FoldMax(temps[..|temps| - 1]);
      var t := temps[|temps| - 1];
      assert forall k :: 0 <= k < |temps| - 1 ==> temps[k] == temps[..|temps| - 1][k];
      if t > prev then t else prev
  }

  /** The running minimum after the whole list: lowered whenever a smaller value appears. */
  function FoldMin(temps: seq<real>): (m: real)
    ensures m <= MinSentinel
    ensures forall k :: 0 <= k < |temps| ==> m <= temps[k]
    ensures m == MinSentinel || m in temps
  {
    if temps == [] then MinSentinel
    else
      var prev := FoldMin(temps[..|temps| - 1]);
      var t := temps[|temps| - 1];
      assert forall k :: 0 <= k < |temps| - 1 ==> temps[k] == temps[..|temps| - 1][k];
      if t < prev then t else prev
  }

  /** `get_temp_range`: one pass updating both accumulators; returns the
      minimum and maximum minus minimum. */
  method GetTempRange(temps: seq<real>) returns (minTemp: real, range: real)
    ensures minTemp == FoldMin(temps) && minTemp + range == FoldMax(temps)
  {
    var maxTemp := MaxSentinel;
    minTemp := MinSentinel;
    var i := 0;
    while i < |temps|
      invariant 0 <= i <= |temps|
      invariant maxTemp == FoldMax(temps[..i]) && minTemp == FoldMin(temps[..i])
    {
      assert temps[..i + 1][..i] == temps[..i];
      if temps[i] > maxTemp {
        maxTemp := temps[i];
      }
      if temps[i] < minTemp {
        minTemp := temps[i];
      }
      i := i + 1;
    }
    assert temps[..i] == temps;
    range := maxTemp - minTemp;
  }

  /** Every temperature lies in [min, min + range]; for a non-empty list the
      range is non-negative. */
  lemma TempRangeBounds(temps: seq<real>)
    ensures var lo, hi := FoldMin(temps), FoldMax(temps);
      forall k :: 0 <= k < |temps| ==> lo <= temps[k] <= lo + (hi - lo)
    ensures |temps| > 0 ==> FoldMax(temps) - FoldMin(temps) >= 0.0
  {
    if |temps| > 0 {
      assert FoldMin(temps) <= temps[0] <= FoldMax(temps);
    }
  }

  /** The sentinels show through: the minimum never exceeds 100 and the
      maximum never drops below 0, so a list entirely above 100 reports a
      minimum of 100 and the empty list reports (100, -100). */
  lemma {:induction false} SentinelsShowThrough(temps: seq<real>)
    ensures FoldMin(temps) <= 100.0 && FoldMax(temps) >= 0.0
    ensures (forall k :: 0 <= k < |temps| ==> temps[k] >= 100.0) ==> FoldMin(temps) == 100.0
    ensures temps == [] ==> FoldMin(temps) == 100.0 && FoldMax(temps) - FoldMin(temps) == -100.0
  {
    if temps != [] {
      var init := temps[..|temps| - 1];
      SentinelsShowThrough(init);
      assert forall k :: 0 <= k < |init| ==> init[k] == temps[k];
    }
  }

  /** The range of a non-empty list is 0 exactly when every temperature is
      the same value between the two sentinels: a flat forecast. */
  lemma ZeroRangeExactly(temps: seq<real>)
    requires |temps| > 0
    ensures FoldMax(temps) - FoldMin(temps) == 0.0 <==>
            (forall k :: 0 <= k < |temps| ==> temps[k] == temps[0]) && 0.0 <= temps[0] <= 100.0
  {
    TempRangeBounds(temps);
    if (forall k :: 0 <= k < |temps| ==> temps[k] == temps[0]) && 0.0 <= temps[0] <= 100.0 {
      assert FoldMin(temps) == temps[0];
      assert FoldMax(temps) == temps[0];
    }
  }

  /** Worked case: temperatures 40, 50, 60 give minimum 40 and range 20. */
  lemma TempRangeExample()
    ensures FoldMin([40.0, 50.0, 60.0]) == 40.0 && FoldMax([40.0, 50.0, 60.0]) - 40.0 == 20.0
  {
    assert [40.0, 50.0, 60.0][..2] == [40.0, 50.0];
    assert [40.0, 50.0][..1] == [40.0];
    assert [40.0][..0] == [];
  }
}
