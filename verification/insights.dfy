/** The insights panel: start, end and selected point of a series and the
    percentage change from the start to the selected point. */
module Insights {
  import opened Wrappers
  import opened Numeric
  import opened Series

  datatype Insights = Insights(
    currentValue: real,
    currentDate: string,
    startValue: real,
    startDate: string,
    endValue: real,
    endDate: string,
    percentChange: Quotient,
    isPositive: bool)

  /** The point the panel reports on: the first point dated `selectedDate`
      when a non-empty date is selected and present, else the last point. */
  function SelectedPoint(data: seq<Point>, selectedDate: Option<string>): (p: Point)
    requires |data| > 0
    ensures selectedDate.Some? && selectedDate.value != "" && HasDate(data, selectedDate.value) ==>
      exists i :: FirstWithDate(data, selectedDate.value, i) && p == data[i]
    ensures !(selectedDate.Some? && selectedDate.value != "" && HasDate(data, selectedDate.value)) ==>
      p == data[|data| - 1]
  {
    var last := data[|data| - 1];
    if selectedDate.Some? && selectedDate.value != "" then
      match FindDate(data, selectedDate.value)
      case Some(found) => found
      case None => last
    else last
  }

  /** `((selected - start) / start) * 100`. */
  function PercentChange(start: real, selected: real): (q: Quotient)
    ensures start != 0.0 ==> q.Finite? && q.value * start == (selected - start) * 100.0
    ensures start == 0.0 ==> !q.Finite?
  {
    ScaleBy(Divide(selected - start, start), 100.0)
  }

  /** The panel's figures, or `None` (no data available) for an empty series. */
  function ComputeInsights(data: seq<Point>, selectedDate: Option<string>): (r: Option<Insights>)
    ensures r.None? <==> |data| == 0
    ensures r.Some? ==>
      && r.value.startValue == data[0].price && r.value.startDate == data[0].date
      && r.value.endValue == data[|data| - 1].price && r.value.endDate == data[|data| - 1].date
    ensures r.Some? ==>
      var p := SelectedPoint(data, selectedDate);
      r.value.currentValue == p.price && r.value.currentDate == p.date
    ensures r.Some? && data[0].price != 0.0 ==>
      && r.value.percentChange.Finite?
      && r.value.percentChange.value * data[0].price == (r.value.currentValue - data[0].price) * 100.0
    ensures r.Some? ==> (r.value.isPositive <==> AtLeastZero(r.value.percentChange))
  {
    if |data| == 0 then None
    else
      var start := data[0];
      var end := data[|data| - 1];
      var selected := SelectedPoint(data, selectedDate);
      var change := PercentChange(start.price, selected.price);
      Some(Insights(selected.price, selected.date, start.price, start.date, end.price, end.date,
                    change, AtLeastZero(change)))
  }

  /** From a positive starting price, the change reads as positive exactly
      when the selected price is at least the starting price. */
  lemma PositiveStartSign(data: seq<Point>, selectedDate: Option<string>)
    requires |data| > 0 && data[0].price > 0.0
    ensures var r := ComputeInsights(data, selectedDate).value;
      r.isPositive <==> r.currentValue >= r.startValue
  {
    var r := ComputeInsights(data, selectedDate).value;
    var v := r.percentChange.value;
    var s := data[0].price;
    assert v * s == (r.currentValue - s) * 100.0;
    if v >= 0.0 {
      assert v * s >= 0.0;
    } else {
      assert v * s < 0.0;
    }
  }

  /** From a zero starting price the change is non-finite: it reads as
      positive exactly when the selected price is positive, since 0/0 is
      NaN and compares false. */
  lemma ZeroStartSign(data: seq<Point>, selectedDate: Option<string>)
    requires |data| > 0 && data[0].price == 0.0
    ensures var r := ComputeInsights(data, selectedDate).value;
      r.isPositive <==> r.currentValue > 0.0
  {
  }

  /** Selecting the first date reports no change. */
  lemma SelectingStartIsNoChange(data: seq<Point>)
    requires |data| > 0 && data[0].date != "" && data[0].price != 0.0
    ensures var r := ComputeInsights(data, Some(data[0].date)).value;
      r.percentChange == Finite(0.0) && r.isPositive && r.currentDate == r.startDate
  {
    assert FindIndexOfDate(data, data[0].date) == Some(0);
    assert SelectedPoint(data, Some(data[0].date)) == data[0];
    assert Divide(0.0, data[0].price) == Finite(0.0);
  }
}
