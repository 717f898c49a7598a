/** The single-asset chart: a series is drawn as a historical line followed
    by a forecast band, split at the first point that carries both bounds. */
module Forecast {
  import opened Wrappers
  import opened Series

  datatype ChartData = ChartData(
    historical: seq<Point>,
    forecast: seq<Point>,
    transitionDate: Option<string>,
    hasConfidenceBands: bool)

  /** `data.findIndex(HasBands)`, with -1 as `None`. */
  function FirstBandedIndex(data: seq<Point>): (r: Option<nat>)
    ensures r.None? <==> forall i :: 0 <= i < |data| ==> !HasBands(data[i])
    ensures r.Some? ==> r.value < |data| && HasBands(data[r.value])
    ensures r.Some? ==> forall j :: 0 <= j < r.value ==> !HasBands(data[j])
  {
    if |data| == 0 then None
    else if HasBands(data[0]) then Some(0)
    else
      match FirstBandedIndex(data[1..])
      case None => None
      case Some(k) => Some(k + 1)
  }

  /** The chart data for a series. `transitionDate` is the first forecast
      date unless that date is the (falsy) empty string. */
  function Split(data: seq<Point>): (c: ChartData)
    ensures |data| == 0 ==> c == ChartData([], [], None, false)
    ensures c.historical + c.forecast == data
    ensures forall i :: 0 <= i < |c.historical| ==> !HasBands(c.historical[i])
    ensures |c.forecast| > 0 ==> HasBands(c.forecast[0])
    ensures c.hasConfidenceBands <==> exists i :: 0 <= i < |data| && HasBands(data[i])
    ensures c.hasConfidenceBands <==> |c.forecast| > 0
    ensures c.transitionDate.Some? <==> |c.forecast| > 0 && c.forecast[0].date != ""
    ensures c.transitionDate.Some? ==> c.transitionDate.value == c.forecast[0].date
  {
    if |data| == 0 then ChartData([], [], None, false)
    else
      match FirstBandedIndex(data)
      case None => ChartData(data, [], None, false)
      case Some(i) =>
        var forecast := data[i..];
        assert data[..i] + forecast == data;
        ChartData(data[..i], forecast, if forecast[0].date != "" then Some(forecast[0].date) else None, true)
  }

  /** The split is the only one with those properties: a band-free prefix
      followed by a suffix that is empty or starts with a banded point. */
  lemma SplitUnique(data: seq<Point>, h: seq<Point>, f: seq<Point>)
    requires h + f == data
    requires forall i :: 0 <= i < |h| ==> !HasBands(h[i])
    requires |f| > 0 ==> HasBands(f[0])
    ensures Split(data).historical == h && Split(data).forecast == f
  {
    if |f| > 0 {
      assert data[|h|] == f[0];
      assert forall j :: 0 <= j < |h| ==> data[j] == h[j];
      assert f == data[|h|..];
    } else {
      assert h == data;
    }
  }
}
