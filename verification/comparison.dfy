/** The comparison chart: each selected asset's series is cut to a shared
    date window and rescaled so that its first point in the window is 1;
    then all series are merged into one table with a row per date that
    any of them has, leaving a gap (no entry) where an asset has no point. */
module Comparison {
  import opened Wrappers
  import opened Dates
  import opened Numeric
  import opened Series

  /** One compared asset as handed to the chart. */
  datatype AssetSeries = AssetSeries(assetId: string, assetName: string, data: seq<Point>)

  /** A point together with its value relative to the series' first point. */
  datatype NormPoint = NormPoint(point: Point, normalized: Quotient)

  /** An asset after filtering and normalisation. */
  datatype Processed = Processed(assetId: string, assetName: string, data: seq<NormPoint>)

  // ----- Range filter -----

  /** `startDate && endDate`: both ends are given and non-empty. */
  predicate WindowGiven(start: Option<string>, end: Option<string>)
  {
    start.Some? && start.value != "" && end.Some? && end.value != ""
  }

  /** `start <= p.date && p.date <= end`, as string comparisons. */
  predicate InWindow(p: Point, start: string, end: string)
  {
    NotAfter(start, p.date) && NotAfter(p.date, end)
  }

  /** The points of `data` inside the inclusive window, in order. */
  function FilterRange(data: seq<Point>, start: string, end: string): (r: seq<Point>)
    ensures forall p :: p in r <==> p in data && InWindow(p, start, end)
    ensures |r| <= |data|
  {
    if |data| == 0 then []
    else (if InWindow(data[0], start, end) then [data[0]] else []) + FilterRange(data[1..], start, end)
  }

  /** Filtering distributes over concatenation: the kept points stay in
      their original order. */
  lemma {:induction false} FilterRangeAppend(a: seq<Point>, c: seq<Point>, start: string, end: string)
    ensures FilterRange(a + c, start, end) == FilterRange(a, start, end) + FilterRange(c, start, end)
    decreases |a|
  {
    if |a| == 0 {
      assert a + c == c;
    } else {
      assert (a + c)[1..] == a[1..] + c;
      FilterRangeAppend(a[1..], c, start, end);
    }
  }

  /** A series entirely inside the window is left as it is. */
  lemma {:induction false} FilterRangeInside(data: seq<Point>, start: string, end: string)
    requires forall i :: 0 <= i < |data| ==> InWindow(data[i], start, end)
    ensures FilterRange(data, start, end) == data
    decreases |data|
  {
    if |data| > 0 {
      FilterRangeInside(data[1..], start, end);
      assert data == [data[0]] + data[1..];
    }
  }

  /** Filtering an already filtered series to the same or a wider window
      changes nothing. */
  lemma FilterRangeWider(data: seq<Point>, start: string, end: string, start': string, end': string)
    requires NotAfter(start', start) && NotAfter(end, end')
    ensures FilterRange(FilterRange(data, start, end), start', end') == FilterRange(data, start, end)
  {
    var f := FilterRange(data, start, end);
    forall i | 0 <= i < |f|
      ensures InWindow(f[i], start', end')
    {
      assert f[i] in f;
      NotAfterTransitive(start', start, f[i].date);
      NotAfterTransitive(f[i].date, end, end');
    }
    FilterRangeInside(f, start', end');
  }

  lemma FilterRangeIdempotent(data: seq<Point>, start: string, end: string)
    ensures FilterRange(FilterRange(data, start, end), start, end) == FilterRange(data, start, end)
  {
    FilterRangeWider(data, start, end, start, end);
  }

  /** The first kept point is the earliest point of `data` inside the
      window: this is the anchor normalisation divides by. */
  lemma {:induction false} FilterRangeFirst(data: seq<Point>, start: string, end: string)
    requires |FilterRange(data, start, end)| > 0
    ensures exists i ::
              && 0 <= i < |data| && FilterRange(data, start, end)[0] == data[i]
              && InWindow(data[i], start, end)
              && forall j :: 0 <= j < i ==> !InWindow(data[j], start, end)
    decreases |data|
  {
    if !InWindow(data[0], start, end) {
      FilterRangeFirst(data[1..], start, end);
      var i :| 0 <= i < |data[1..]| && FilterRange(data[1..], start, end)[0] == data[1..][i]
        && InWindow(data[1..][i], start, end)
        && forall j :: 0 <= j < i ==> !InWindow(data[1..][j], start, end);
      assert data[i + 1] == data[1..][i];
      forall j | 0 <= j < i + 1
        ensures !InWindow(data[j], start, end)
      {
        if j > 0 {
          assert data[j] == data[1..][j - 1];
        }
      }
    }
  }

  /** The series the chart shows for the window: filtered only when both
      ends are given. */
  function Windowed(data: seq<Point>, start: Option<string>, end: Option<string>): (r: seq<Point>)
    ensures !WindowGiven(start, end) ==> r == data
    ensures WindowGiven(start, end) ==> forall p :: p in r <==> p in data && InWindow(p, start.value, end.value)
  {
    if WindowGiven(start, end) then FilterRange(data, start.value, end.value) else data
  }

  // ----- Baseline normaliser -----

  /** Every point divided by the first point's price; an empty series stays empty. */
  function Normalize(data: seq<Point>): (r: seq<NormPoint>)
    ensures |r| == |data|
    ensures forall i :: 0 <= i < |r| ==> r[i].point == data[i]
    ensures |data| > 0 && data[0].price != 0.0 ==>
      && r[0].normalized == Finite(1.0)
      && forall i :: 0 <= i < |r| ==>
           r[i].normalized.Finite? && r[i].normalized.value * data[0].price == data[i].price
    ensures |data| > 0 && data[0].price == 0.0 ==>
      forall i :: 0 <= i < |r| ==>
        !r[i].normalized.Finite? && (r[i].normalized == NaN <==> data[i].price == 0.0)
  {
    if |data| == 0 then []
    else
      seq(|data|, i requires 0 <= i < |data| =>
        NormPoint(data[i], Divide(data[i].price, data[0].price)))
  }

  /** Normalisation removes the unit: two series whose prices differ by a
      constant non-zero factor normalise to the same values. */
  lemma NormalizeScaleInvariant(a: seq<Point>, c: seq<Point>, k: real)
    requires |a| == |c| && |a| > 0 && a[0].price != 0.0 && k != 0.0
    requires forall i :: 0 <= i < |a| ==> c[i].price == k * a[i].price
    ensures forall i :: 0 <= i < |a| ==> Normalize(a)[i].normalized == Normalize(c)[i].normalized
  {
    var na, nc := Normalize(a), Normalize(c);
    forall i | 0 <= i < |a|
      ensures na[i].normalized == nc[i].normalized
    {
      var x, y := na[i].normalized.value, nc[i].normalized.value;
      assert x * a[0].price == a[i].price;
      assert y * (k * a[0].price) == k * a[i].price;
      assert k * (y * a[0].price) == k * (x * a[0].price);
      assert y * a[0].price == x * a[0].price;
    }
  }

  function PointsOf(nps: seq<NormPoint>): (r: seq<Point>)
    ensures |r| == |nps|
    ensures forall i :: 0 <= i < |nps| ==> r[i] == nps[i].point
  {
    seq(|nps|, i requires 0 <= i < |nps| => nps[i].point)
  }

  /** One asset as the chart processes it: windowed, then normalised
      against its first point in the window. */
  function Process(a: AssetSeries, start: Option<string>, end: Option<string>): (r: Processed)
    ensures r.assetId == a.assetId && r.assetName == a.assetName
    ensures PointsOf(r.data) == Windowed(a.data, start, end)
    ensures |r.data| > 0 && r.data[0].point.price != 0.0 ==> r.data[0].normalized == Finite(1.0)
    ensures |r.data| > 0 && r.data[0].point.price != 0.0 ==>
      forall i :: 0 <= i < |r.data| ==>
        r.data[i].normalized.Finite? && r.data[i].normalized.value * r.data[0].point.price == r.data[i].point.price
  {
    var w := Windowed(a.data, start, end);
    var r := Processed(a.assetId, a.assetName, Normalize(w));
    assert PointsOf(r.data) == w;
    r
  }

  function ProcessAll(assets: seq<AssetSeries>, start: Option<string>, end: Option<string>): (r: seq<Processed>)
    ensures |r| == |assets|
    ensures forall k :: 0 <= k < |assets| ==> r[k] == Process(assets[k], start, end)
  {
    seq(|assets|, k requires 0 <= k < |assets| => Process(assets[k], start, end))
  }

  // ----- Union merge -----

  /** What a row stores for one asset: the shown value (`normalized`,
      or the raw price when that is falsy) and the raw price (`<id>_actual`). */
  datatype Cell = Cell(shown: Quotient, actual: real)

  function CellOf(np: NormPoint): Cell
  {
    Cell(if Truthy(np.normalized) then np.normalized else Finite(np.point.price), np.point.price)
  }

  /** With a non-zero anchor the falsy fallback never changes the shown
      value: a zero ratio only arises from a zero price. */
  lemma ShownIsNormalized(data: seq<Point>, i: int)
    requires 0 <= i < |data| && data[0].price != 0.0
    ensures CellOf(Normalize(data)[i]).shown == Normalize(data)[i].normalized
  {
    var np := Normalize(data)[i];
    if np.normalized.value == 0.0 {
      assert data[i].price == 0.0;
    }
  }

  /** One row of the merged table. */
  datatype Row = Row(date: string, cells: map<string, Cell>)

  function CellAt(row: Row, id: string): Option<Cell>
  {
    if id in row.cells then Some(row.cells[id]) else None
  }

  function RowDates(rows: seq<Row>): seq<string>
  {
    seq(|rows|, i requires 0 <= i < |rows| => rows[i].date)
  }

  /** The date-keyed `Map` being filled: its keys in insertion order and,
      per date, the cells written so far. */
  datatype Table = Table(order: seq<string>, rows: map<string, map<string, Cell>>)

  const EmptyTable := Table([], map[])

  ghost predicate TableOk(t: Table)
  {
    forall d :: d in t.order <==> d in t.rows
  }

  function Lookup(t: Table, d: string, id: string): Option<Cell>
  {
    if d in t.rows && id in t.rows[d] then Some(t.rows[d][id]) else None
  }

  predicate HasNormDate(pts: seq<NormPoint>, d: string)
  {
    exists j :: 0 <= j < |pts| && pts[j].point.date == d
  }

  /** Some processed asset has a point dated `d`. */
  predicate OccursIn(ps: seq<Processed>, d: string)
  {
    exists k :: 0 <= k < |ps| && HasNormDate(ps[k].data, d)
  }

  /** The cell of the last point of `pts` dated `d`. */
  function LastIn(pts: seq<NormPoint>, d: string): (r: Option<Cell>)
    ensures r.Some? <==> HasNormDate(pts, d)
    ensures r.Some? ==>
      exists j ::
        && 0 <= j < |pts| && pts[j].point.date == d && r.value == CellOf(pts[j])
        && forall j' :: j < j' < |pts| ==> pts[j'].point.date != d
  {
    if |pts| == 0 then None
    else if pts[|pts| - 1].point.date == d then Some(CellOf(pts[|pts| - 1]))
    else
      var r := LastIn(pts[..|pts| - 1], d);
      assert HasNormDate(pts, d) ==> HasNormDate(pts[..|pts| - 1], d) by {
        if HasNormDate(pts, d) {
          var j :| 0 <= j < |pts| && pts[j].point.date == d;
          assert pts[..|pts| - 1][j] == pts[j];
        }
      }
      r
  }

  /** Reference definition of a merged cell: the last write wins, so it is
      the cell of the last point dated `d` in the last asset with id `id`
      that has such a point. */
  function LastCell(ps: seq<Processed>, d: string, id: string): (r: Option<Cell>)
    ensures r.Some? <==> exists k :: 0 <= k < |ps| && ps[k].assetId == id && HasNormDate(ps[k].data, d)
    ensures r.Some? ==>
      exists k, j ::
        && 0 <= k < |ps| && 0 <= j < |ps[k].data| && ps[k].assetId == id
        && ps[k].data[j].point.date == d && r.value == CellOf(ps[k].data[j])
  {
    if |ps| == 0 then None
    else
      var n := |ps| - 1;
      if ps[n].assetId == id && HasNormDate(ps[n].data, d) then LastIn(ps[n].data, d)
      else
        var r := LastCell(ps[..n], d, id);
        assert forall k :: 0 <= k < n ==> ps[..n][k] == ps[k];
        r
  }

  /** `dateMap.get(date)[id] = ...` for one point. */
  function WritePoint(t: Table, id: string, np: NormPoint): (r: Table)
    ensures TableOk(t) ==> TableOk(r)
    ensures forall d :: d in r.rows <==> d in t.rows || d == np.point.date
    ensures forall d, id' ::
              Lookup(r, d, id') == if d == np.point.date && id' == id then Some(CellOf(np)) else Lookup(t, d, id')
  {
    var d := np.point.date;
    var row := if d in t.rows then t.rows[d] else map[];
    Table(if d in t.rows then t.order else t.order + [d], t.rows[d := row[id := CellOf(np)]])
  }

  /** The inner `forEach`: one asset's points, in order. */
  function WriteSeries(t: Table, id: string, pts: seq<NormPoint>): (r: Table)
    ensures TableOk(t) ==> TableOk(r)
    ensures forall d :: d in r.rows <==> d in t.rows || HasNormDate(pts, d)
    ensures forall d, id' ::
              Lookup(r, d, id') == if id' == id && HasNormDate(pts, d) then LastIn(pts, d) else Lookup(t, d, id')
  {
    if |pts| == 0 then t
    else
      var n := |pts| - 1;
      var r := WritePoint(WriteSeries(t, id, pts[..n]), id, pts[n]);
      assert forall d :: HasNormDate(pts, d) <==> HasNormDate(pts[..n], d) || pts[n].point.date == d by {
        forall d | HasNormDate(pts, d) && pts[n].point.date != d
          ensures HasNormDate(pts[..n], d)
        {
          var j :| 0 <= j < |pts| && pts[j].point.date == d;
          assert pts[..n][j] == pts[j];
        }
        forall d | HasNormDate(pts[..n], d)
          ensures HasNormDate(pts, d)
        {
          var j :| 0 <= j < n && pts[..n][j].point.date == d;
          assert pts[j] == pts[..n][j];
        }
      }
      r
  }

  lemma OccursInSnoc(ps: seq<Processed>)
    requires |ps| > 0
    ensures forall d :: OccursIn(ps, d) <==> OccursIn(ps[..|ps| - 1], d) || HasNormDate(ps[|ps| - 1].data, d)
  {
    var n := |ps| - 1;
    forall d
      ensures OccursIn(ps, d) <==> OccursIn(ps[..n], d) || HasNormDate(ps[n].data, d)
    {
      if OccursIn(ps, d) && !HasNormDate(ps[n].data, d) {
        var k :| 0 <= k < |ps| && HasNormDate(ps[k].data, d);
        assert ps[..n][k] == ps[k];
      }
      if OccursIn(ps[..n], d) {
        var k :| 0 <= k < n && HasNormDate(ps[..n][k].data, d);
        assert ps[k] == ps[..n][k];
      }
    }
  }

  /** The outer `forEach`: every processed asset, in order. */
  function WriteAll(t: Table, ps: seq<Processed>): (r: Table)
    ensures TableOk(t) ==> TableOk(r)
    ensures forall d :: d in r.rows <==> d in t.rows || OccursIn(ps, d)
    ensures forall d, id ::
              Lookup(r, d, id) == if LastCell(ps, d, id).Some? then LastCell(ps, d, id) else Lookup(t, d, id)
  {
    if |ps| == 0 then t
    else
      var n := |ps| - 1;
      var prev := WriteAll(t, ps[..n]);
      OccursInSnoc(ps);
      WriteSeries(prev, ps[n].assetId, ps[n].data)
  }

  /** The merged table: one row per date of any processed asset, sorted
      ascending; a row holds an asset's cell exactly when that asset has a
      point on the row's date, and the cell is the last one written. */
  function Merge(ps: seq<Processed>): (r: seq<Row>)
    ensures |ps| == 0 ==> r == []
    ensures StrictlyAscending(RowDates(r))
    ensures forall d :: d in RowDates(r) <==> OccursIn(ps, d)
    ensures forall i, id :: 0 <= i < |r| ==> CellAt(r[i], id) == LastCell(ps, r[i].date, id)
  {
    if |ps| == 0 then []
    else
      var t := WriteAll(EmptyTable, ps);
      var dates := SortDistinct(t.order);
      var r := seq(|dates|, i requires 0 <= i < |dates| => Row(dates[i], t.rows[dates[i]]));
      assert RowDates(r) == dates;
      forall i, id | 0 <= i < |r|
        ensures CellAt(r[i], id) == LastCell(ps, r[i].date, id)
      {
        assert Lookup(t, dates[i], id) == CellAt(r[i], id);
      }
      r
  }

  /** The comparison chart's data for a window. */
  function ComparisonTable(assets: seq<AssetSeries>, start: Option<string>, end: Option<string>): (r: seq<Row>)
    ensures |assets| == 0 ==> r == []
    ensures StrictlyAscending(RowDates(r))
    ensures forall d :: d in RowDates(r) <==>
      exists k :: 0 <= k < |assets| && HasDate(Windowed(assets[k].data, start, end), d)
    ensures forall i, id :: 0 <= i < |r| ==> CellAt(r[i], id) == LastCell(ProcessAll(assets, start, end), r[i].date, id)
  {
    var ps := ProcessAll(assets, start, end);
    forall d
      ensures OccursIn(ps, d) <==> exists k :: 0 <= k < |assets| && HasDate(Windowed(assets[k].data, start, end), d)
    {
      forall k | 0 <= k < |assets|
        ensures HasNormDate(ps[k].data, d) <==> HasDate(Windowed(assets[k].data, start, end), d)
      {
        var w := Windowed(assets[k].data, start, end);
        assert PointsOf(ps[k].data) == w;
        if HasDate(w, d) {
          var j :| 0 <= j < |w| && w[j].date == d;
          assert ps[k].data[j].point == w[j];
        }
      }
    }
    Merge(ps)
  }

  /** No zero-fill: an asset has a cell in a row exactly when one of its
      processed series has a point on that date; the cell's actual value is
      that point's raw price. */
  lemma CellPresence(ps: seq<Processed>, i: int, id: string)
    requires 0 <= i < |Merge(ps)|
    ensures var row := Merge(ps)[i];
      && (id in row.cells <==> exists k :: 0 <= k < |ps| && ps[k].assetId == id && HasNormDate(ps[k].data, row.date))
      && (id in row.cells ==>
            exists k, j ::
              && 0 <= k < |ps| && 0 <= j < |ps[k].data| && ps[k].assetId == id
              && ps[k].data[j].point.date == row.date && row.cells[id].actual == ps[k].data[j].point.price)
  {
    var row := Merge(ps)[i];
    assert CellAt(row, id) == LastCell(ps, row.date, id);
  }
}
