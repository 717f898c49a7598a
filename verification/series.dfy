/** The value type carried through the engine: one dated point of an
    asset's series, priced in the reference unit, with the optional 25th
    and 75th percentile forecast bounds (`AssetData` in the source). */
module Series {
  import opened Wrappers

  datatype Point = Point(date: string, price: real, p25: Option<real>, p75: Option<real>)

  /** The point carries a forecast band: both bounds are present. */
  predicate HasBands(p: Point)
  {
    p.p25.Some? && p.p75.Some?
  }

  /** Some point of `data` is dated `d`. */
  predicate HasDate(data: seq<Point>, d: string)
  {
    exists i :: 0 <= i < |data| && data[i].date == d
  }

  /** `i` is the position of the first point of `data` dated `d`. */
  predicate FirstWithDate(data: seq<Point>, d: string, i: int)
  {
    && 0 <= i < |data|
    && data[i].date == d
    && forall j :: 0 <= j < i ==> data[j].date != d
  }

  /** The dates of `data`, in order. */
  function DatesOf(data: seq<Point>): (r: seq<string>)
    ensures |r| == |data|
    ensures forall i :: 0 <= i < |data| ==> r[i] == data[i].date
    ensures forall d :: d in r <==> HasDate(data, d)
  {
    seq(|data|, i requires 0 <= i < |data| => data[i].date)
  }

  /** `data.findIndex(p => p.date === d)`, with -1 as `None`. */
  function FindIndexOfDate(data: seq<Point>, d: string): (r: Option<nat>)
    ensures r.None? <==> !HasDate(data, d)
    ensures r.Some? ==> FirstWithDate(data, d, r.value)
  {
    if |data| == 0 then None
    else if data[0].date == d then Some(0)
    else
      match FindIndexOfDate(data[1..], d)
      case None => None
      case Some(k) => Some(k + 1)
  }

  /** `data.find(p => p.date === d)`: the first point dated `d`, if any. */
  function FindDate(data: seq<Point>, d: string): (r: Option<Point>)
    ensures r.None? <==> !HasDate(data, d)
    ensures r.Some? ==> exists i :: FirstWithDate(data, d, i) && r.value == data[i]
  {
    match FindIndexOfDate(data, d)
    case None => None
    case Some(i) => Some(data[i])
  }

  /** Two positions that are both "first dated `d`" are the same position. */
  lemma FirstWithDateUnique(data: seq<Point>, d: string, i: int, j: int)
    requires FirstWithDate(data, d, i) && FirstWithDate(data, d, j)
    ensures i == j
  {
  }

  /** A series with no dated point is the empty series. */
  lemma UndatedIsEmpty(data: seq<Point>)
    ensures (forall d :: !HasDate(data, d)) ==> data == []
  {
    if |data| > 0 {
      assert HasDate(data, data[0].date);
    }
  }
}
