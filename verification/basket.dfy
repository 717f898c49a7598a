/** The basket builder: editing a basket of at most five weighted assets,
    and collapsing the members' series into one weighted composite series
    over the dates every member has. */
module Basket {
  import opened Wrappers
  import opened Dates
  import opened Series

  /** One basket entry: an asset id and its weight in percent. */
  datatype BasketAsset = BasketAsset(name: string, weight: real)

  /** At most this many assets may be in a basket. */
  const MaxAssets: nat := 5

  /** The asset ids that have data files; any other id loads no data. */
  const Catalog: seq<string> := ["gold", "sp500", "oil", "cpi", "us100"]

  // ----- Editing the basket -----

  /** The sum of the members' weights, folded from the left. */
  function TotalWeight(b: seq<BasketAsset>): real
  {
    if |b| == 0 then 0.0 else TotalWeight(b[..|b| - 1]) + b[|b| - 1].weight
  }

  lemma {:induction false} TotalWeightAppend(a: seq<BasketAsset>, c: seq<BasketAsset>)
    ensures TotalWeight(a + c) == TotalWeight(a) + TotalWeight(c)
    decreases |c|
  {
    if |c| == 0 {
      assert a + c == a;
    } else {
      assert (a + c)[..|a + c| - 1] == a + c[..|c| - 1];
      TotalWeightAppend(a, c[..|c| - 1]);
    }
  }

  /** The total is shown in the primary colour when it is within 0.01 of 100. */
  predicate WeightOnTarget(b: seq<BasketAsset>)
  {
    -0.01 < TotalWeight(b) - 100.0 < 0.01
  }

  predicate Contains(b: seq<BasketAsset>, name: string)
  {
    exists i :: 0 <= i < |b| && b[i].name == name
  }

  predicate NamesDistinct(b: seq<BasketAsset>)
  {
    forall i, j :: 0 <= i < j < |b| ==> b[i].name != b[j].name
  }

  lemma ContainsTail(b: seq<BasketAsset>, name: string)
    requires |b| > 0
    ensures Contains(b[1..], name) ==> Contains(b, name)
  {
    if Contains(b[1..], name) {
      var i :| 0 <= i < |b[1..]| && b[1..][i].name == name;
      assert b[i + 1] == b[1..][i];
    }
  }

  lemma TotalWeightCons(x: BasketAsset, s: seq<BasketAsset>)
    ensures TotalWeight([x] + s) == x.weight + TotalWeight(s)
  {
    TotalWeightAppend([x], s);
    assert [x][..0] == [];
  }

  /** What the editing operations maintain: at most five members, each
      asset at most once, no negative weight. */
  predicate ValidBasket(b: seq<BasketAsset>)
  {
    && |b| <= MaxAssets
    && NamesDistinct(b)
    && forall i :: 0 <= i < |b| ==> b[i].weight >= 0.0
  }

  /** Why an add was refused; each reason is reported to the user and the
      basket is left as it was. */
  datatype AddError = NoAssetSelected | InvalidWeight | AlreadyInBasket | BasketFull

  /** Adds `asset` with the parsed weight input (`None` for an empty field).
      The checks run in the order `addAsset` makes them, and the first
      failing one is reported. */
  function AddAsset(b: seq<BasketAsset>, asset: string, weight: Option<real>): (r: Result<seq<BasketAsset>, AddError>)
    ensures r.Success? <==>
      asset != "" && weight.Some? && weight.value > 0.0 && !Contains(b, asset) && |b| < MaxAssets
    ensures r.Success? ==> r.value == b + [BasketAsset(asset, weight.value)]
    ensures r == Failure(NoAssetSelected) <==> asset == ""
    ensures r == Failure(InvalidWeight) <==> asset != "" && (weight.None? || weight.value <= 0.0)
    ensures r == Failure(AlreadyInBasket) ==> Contains(b, asset)
    ensures r == Failure(BasketFull) ==> |b| >= MaxAssets && !Contains(b, asset)
  {
    if asset == "" then Failure(NoAssetSelected)
    else if weight.None? || weight.value <= 0.0 then Failure(InvalidWeight)
    else if Contains(b, asset) then Failure(AlreadyInBasket)
    else if |b| >= MaxAssets then Failure(BasketFull)
    else Success(b + [BasketAsset(asset, weight.value)])
  }

  /** The basket held after an add attempt: the new basket, or the old one
      when the add was refused. */
  function BasketAfterAdd(b: seq<BasketAsset>, asset: string, weight: Option<real>): (r: seq<BasketAsset>)
    ensures r == b || (|r| == |b| + 1 && r[..|b|] == b && r[|b|].name == asset)
  {
    match AddAsset(b, asset, weight)
    case Success(nb) => nb
    case Failure(_) => b
  }

  lemma AddKeepsValid(b: seq<BasketAsset>, asset: string, weight: Option<real>)
    requires ValidBasket(b)
    ensures ValidBasket(BasketAfterAdd(b, asset, weight))
  {
    var r := AddAsset(b, asset, weight);
    if r.Success? {
      var nb := r.value;
      forall i, j | 0 <= i < j < |nb|
        ensures nb[i].name != nb[j].name
      {
        if j == |b| {
          assert b[i].name != asset;
        }
      }
    }
  }

  lemma AddTotalWeight(b: seq<BasketAsset>, asset: string, weight: Option<real>)
    requires AddAsset(b, asset, weight).Success?
    ensures TotalWeight(AddAsset(b, asset, weight).value) == TotalWeight(b) + weight.value
  {
    TotalWeightAppend(b, [BasketAsset(asset, weight.value)]);
    assert TotalWeight([BasketAsset(asset, weight.value)]) == weight.value by {
      assert [BasketAsset(asset, weight.value)][..0] == [];
    }
  }

  /** Drops every entry named `name`, keeping the others in order. */
  function RemoveAsset(b: seq<BasketAsset>, name: string): (r: seq<BasketAsset>)
    ensures forall a :: a in r <==> a in b && a.name != name
    ensures !Contains(r, name)
    ensures |r| <= |b|
  {
    if |b| == 0 then []
    else (if b[0].name != name then [b[0]] else []) + RemoveAsset(b[1..], name)
  }

  lemma {:induction false} RemoveAssetAppend(a: seq<BasketAsset>, c: seq<BasketAsset>, name: string)
    ensures RemoveAsset(a + c, name) == RemoveAsset(a, name) + RemoveAsset(c, name)
    decreases |a|
  {
    if |a| == 0 {
      assert a + c == c;
    } else {
      assert (a + c)[1..] == a[1..] + c;
      RemoveAssetAppend(a[1..], c, name);
    }
  }

  lemma {:induction false} RemoveAbsentAsset(b: seq<BasketAsset>, name: string)
    requires !Contains(b, name)
    ensures RemoveAsset(b, name) == b
    decreases |b|
  {
    if |b| > 0 {
      ContainsTail(b, name);
      RemoveAbsentAsset(b[1..], name);
      assert b == [b[0]] + b[1..];
    }
  }

  lemma {:induction false} RemoveKeepsValid(b: seq<BasketAsset>, name: string)
    requires ValidBasket(b)
    ensures ValidBasket(RemoveAsset(b, name))
    decreases |b|
  {
    if |b| > 0 {
      var t := RemoveAsset(b[1..], name);
      RemoveKeepsValid(b[1..], name);
      var r := RemoveAsset(b, name);
      if b[0].name != name {
        forall j | 0 < j < |r|
          ensures r[0].name != r[j].name
        {
          assert r[j] in t;
          assert r[j] in b[1..];
        }
      }
    }
  }

  /** With distinct names, removing an entry takes exactly its weight off the total. */
  lemma {:induction false} RemoveTotalWeight(b: seq<BasketAsset>, k: int)
    requires NamesDistinct(b)
    requires 0 <= k < |b|
    ensures TotalWeight(RemoveAsset(b, b[k].name)) == TotalWeight(b) - b[k].weight
    decreases |b|
  {
    var name := b[k].name;
    var tail := b[1..];
    assert b == [b[0]] + tail;
    TotalWeightCons(b[0], tail);
    if k == 0 {
      assert !Contains(tail, name) by {
        forall i | 0 <= i < |tail|
          ensures tail[i].name != name
        {
          assert tail[i] == b[i + 1];
        }
      }
      RemoveAbsentAsset(tail, name);
      assert RemoveAsset(b, name) == tail;
    } else {
      assert NamesDistinct(tail) by {
        forall i, j | 0 <= i < j < |tail|
          ensures tail[i].name != tail[j].name
        {
          assert tail[i] == b[i + 1] && tail[j] == b[j + 1];
        }
      }
      assert tail[k - 1] == b[k];
      RemoveTotalWeight(tail, k - 1);
      assert RemoveAsset(b, name) == [b[0]] + RemoveAsset(tail, name);
      TotalWeightCons(b[0], RemoveAsset(tail, name));
    }
  }

  /** Sets the weight of every entry named `name` to the parsed input;
      `None` (input that does not parse) and negative input are ignored. */
  function UpdateWeight(b: seq<BasketAsset>, name: string, weight: Option<real>): (r: seq<BasketAsset>)
    ensures |r| == |b|
    ensures weight.None? || weight.value < 0.0 ==> r == b
    ensures forall i :: 0 <= i < |b| ==> r[i].name == b[i].name
    ensures forall i :: 0 <= i < |b| && b[i].name != name ==> r[i] == b[i]
    ensures weight.Some? && weight.value >= 0.0 ==>
      forall i :: 0 <= i < |b| && b[i].name == name ==> r[i].weight == weight.value
  {
    if weight.None? || weight.value < 0.0 then b
    else
      seq(|b|, i requires 0 <= i < |b| =>
        if b[i].name == name then b[i].(weight := weight.value) else b[i])
  }

  lemma UpdateKeepsValid(b: seq<BasketAsset>, name: string, weight: Option<real>)
    requires ValidBasket(b)
    ensures ValidBasket(UpdateWeight(b, name, weight))
  {
  }

  /** With distinct names, updating the weight of member `k` changes the
      total by exactly the difference. */
  lemma {:induction false} UpdateTotalWeight(b: seq<BasketAsset>, k: int, w: real)
    requires NamesDistinct(b)
    requires 0 <= k < |b| && w >= 0.0
    ensures TotalWeight(UpdateWeight(b, b[k].name, Some(w))) == TotalWeight(b) - b[k].weight + w
    decreases |b|
  {
    var name := b[k].name;
    var r := UpdateWeight(b, name, Some(w));
    var n := |b| - 1;
    assert r[..n] == UpdateWeight(b[..n], name, Some(w));
    if k == n {
      assert forall i :: 0 <= i < n ==> b[i].name != name;
      assert r[..n] == b[..n];
    } else {
      UpdateTotalWeight(b[..n], k, w);
      assert b[n].name != name;
    }
  }

  // ----- The weighted composite -----

  /** A basket entry together with the series loaded for it. */
  datatype Member = Member(asset: BasketAsset, data: seq<Point>)

  /** The series loaded for an asset id: nothing for an id outside the
      catalogue, otherwise whatever the loader produced for it (`fetched`
      stands for the parsed data files; a missing key is no data). */
  function DataFor(name: string, fetched: map<string, seq<Point>>): (r: seq<Point>)
    ensures name !in Catalog ==> r == []
    ensures name !in fetched ==> r == []
    ensures name in Catalog && name in fetched ==> r == fetched[name]
  {
    if name in Catalog && name in fetched then fetched[name] else []
  }

  function Members(b: seq<BasketAsset>, fetched: map<string, seq<Point>>): (ms: seq<Member>)
    ensures |ms| == |b|
    ensures forall k :: 0 <= k < |b| ==> ms[k].asset == b[k] && ms[k].data == DataFor(b[k].name, fetched)
  {
    seq(|b|, k requires 0 <= k < |b| => Member(b[k], DataFor(b[k].name, fetched)))
  }

  /** The date is held by every member. */
  ghost predicate InEveryMember(ms: seq<Member>, d: string)
  {
    forall k :: 0 <= k < |ms| ==> HasDate(ms[k].data, d)
  }

  /** The dates of `xs` that `data` also has, in the order of `xs`. */
  function KeepDatesIn(xs: seq<string>, data: seq<Point>): (r: seq<string>)
    ensures forall d :: d in r <==> d in xs && HasDate(data, d)
  {
    if |xs| == 0 then []
    else (if HasDate(data, xs[0]) then [xs[0]] else []) + KeepDatesIn(xs[1..], data)
  }

  /** The `reduce` over the members' date sets: the first member's dates,
      narrowed by each further member in turn. */
  function Intersection(ms: seq<Member>): (r: seq<string>)
    requires |ms| > 0
    ensures forall d :: d in r <==> InEveryMember(ms, d)
    decreases |ms|
  {
    if |ms| == 1 then DatesOf(ms[0].data)
    else
      var n := |ms| - 1;
      var r := KeepDatesIn(Intersection(ms[..n]), ms[n].data);
      assert forall d :: InEveryMember(ms, d) <==> InEveryMember(ms[..n], d) && HasDate(ms[n].data, d) by {
        forall d
          ensures InEveryMember(ms, d) <==> InEveryMember(ms[..n], d) && HasDate(ms[n].data, d)
        {
          if InEveryMember(ms[..n], d) && HasDate(ms[n].data, d) {
            forall k | 0 <= k < |ms|
              ensures HasDate(ms[k].data, d)
            {
              if k < n {
                assert ms[..n][k] == ms[k];
              }
            }
          }
        }
      }
      r
  }

  /** The dates common to every member, sorted ascending without
      duplicates; no members means no dates. */
  function CommonDates(ms: seq<Member>): (r: seq<string>)
    ensures StrictlyAscending(r)
    ensures forall d :: d in r <==> |ms| > 0 && InEveryMember(ms, d)
  {
    if |ms| == 0 then [] else SortDistinct(Intersection(ms))
  }

  /** Running totals for one date: value, lower and upper band, and whether
      any contributing entry carried a band. */
  datatype Totals = Totals(value: real, low: real, high: real, bands: bool)

  function Plus(a: Totals, c: Totals): Totals
  {
    Totals(a.value + c.value, a.low + c.low, a.high + c.high, a.bands || c.bands)
  }

  /** What one member adds on date `d`: its first entry of that date scaled
      by weight/100, with the band only if the entry carries both bounds. */
  function Contribution(m: Member, d: string): Totals
  {
    match FindDate(m.data, d)
    case None => Totals(0.0, 0.0, 0.0, false)
    case Some(e) =>
      var w := m.asset.weight / 100.0;
      if HasBands(e) then Totals(e.price * w, e.p25.value * w, e.p75.value * w, true)
      else Totals(e.price * w, 0.0, 0.0, false)
  }

  /** The `forEach` over the members, in basket order. */
  function Accumulate(ms: seq<Member>, d: string): Totals
  {
    if |ms| == 0 then Totals(0.0, 0.0, 0.0, false)
    else Plus(Accumulate(ms[..|ms| - 1], d), Contribution(ms[|ms| - 1], d))
  }

  // Reference definitions: each quantity as a plain sum over the members.

  /** The member's entry on `d`, when it has one carrying both bounds. */
  ghost predicate BandedEntry(m: Member, d: string)
  {
    var e := FindDate(m.data, d);
    e.Some? && HasBands(e.value)
  }

  ghost predicate AnyBandedEntry(ms: seq<Member>, d: string)
  {
    exists k :: 0 <= k < |ms| && BandedEntry(ms[k], d)
  }

  /** A member's share of the price on `d`: its entry's price times
      weight/100, or nothing without an entry. */
  ghost function PriceShare(m: Member, d: string): real
  {
    var e := FindDate(m.data, d);
    if e.Some? then e.value.price * m.asset.weight / 100.0 else 0.0
  }

  /** A member's share of the lower band: only an entry carrying both bounds adds. */
  ghost function LowShare(m: Member, d: string): real
  {
    if BandedEntry(m, d) then FindDate(m.data, d).value.p25.value * m.asset.weight / 100.0 else 0.0
  }

  ghost function HighShare(m: Member, d: string): real
  {
    if BandedEntry(m, d) then FindDate(m.data, d).value.p75.value * m.asset.weight / 100.0 else 0.0
  }

  /** Sum over the members of their price shares. */
  ghost function WeightedPrice(ms: seq<Member>, d: string): real
  {
    if |ms| == 0 then 0.0 else PriceShare(ms[0], d) + WeightedPrice(ms[1..], d)
  }

  ghost function WeightedLow(ms: seq<Member>, d: string): real
  {
    if |ms| == 0 then 0.0 else LowShare(ms[0], d) + WeightedLow(ms[1..], d)
  }

  ghost function WeightedHigh(ms: seq<Member>, d: string): real
  {
    if |ms| == 0 then 0.0 else HighShare(ms[0], d) + WeightedHigh(ms[1..], d)
  }

  ghost function Reference(ms: seq<Member>, d: string): Totals
  {
    Totals(WeightedPrice(ms, d), WeightedLow(ms, d), WeightedHigh(ms, d), AnyBandedEntry(ms, d))
  }

  lemma ContributionIsShare(m: Member, d: string)
    ensures Contribution(m, d) == Totals(PriceShare(m, d), LowShare(m, d), HighShare(m, d), BandedEntry(m, d))
  {
  }

  /** Accumulating over a concatenation adds the two parts' totals: the
      composite does not depend on how the basket is split or ordered. */
  lemma {:induction false} AccumulateAppend(a: seq<Member>, c: seq<Member>, d: string)
    ensures Accumulate(a + c, d) == Plus(Accumulate(a, d), Accumulate(c, d))
    decreases |c|
  {
    if |c| == 0 {
      assert a + c == a;
    } else {
      assert (a + c)[..|a + c| - 1] == a + c[..|c| - 1];
      AccumulateAppend(a, c[..|c| - 1], d);
    }
  }

  lemma AnyBandedEntryCons(ms: seq<Member>, d: string)
    requires |ms| > 0
    ensures AnyBandedEntry(ms, d) <==> BandedEntry(ms[0], d) || AnyBandedEntry(ms[1..], d)
  {
    if AnyBandedEntry(ms, d) && !BandedEntry(ms[0], d) {
      var k :| 0 <= k < |ms| && BandedEntry(ms[k], d);
      assert ms[1..][k - 1] == ms[k];
    }
    if AnyBandedEntry(ms[1..], d) {
      var k :| 0 <= k < |ms[1..]| && BandedEntry(ms[1..][k], d);
      assert ms[k + 1] == ms[1..][k];
    }
  }

  lemma AccumulateSingle(m: Member, d: string)
    ensures Accumulate([m], d) == Contribution(m, d)
  {
    assert [m][..0] == [];
  }

  lemma ReferenceCons(ms: seq<Member>, d: string)
    requires |ms| > 0
    ensures Reference(ms, d) == Plus(Contribution(ms[0], d), Reference(ms[1..], d))
  {
    var c := Contribution(ms[0], d);
    ContributionIsShare(ms[0], d);
    AnyBandedEntryCons(ms, d);
    assert WeightedPrice(ms, d) == c.value + WeightedPrice(ms[1..], d);
    assert WeightedLow(ms, d) == c.low + WeightedLow(ms[1..], d);
    assert WeightedHigh(ms, d) == c.high + WeightedHigh(ms[1..], d);
  }

  /** The running totals are exactly the reference sums. */
  lemma {:induction false} AccumulateIsWeightedSum(ms: seq<Member>, d: string)
    ensures Accumulate(ms, d) == Reference(ms, d)
    decreases |ms|
  {
    if |ms| == 0 {
      assert Reference(ms, d) == Totals(0.0, 0.0, 0.0, false);
    } else {
      var head, tail := ms[0], ms[1..];
      assert ms == [head] + tail;
      AccumulateAppend([head], tail, d);
      AccumulateSingle(head, d);
      AccumulateIsWeightedSum(tail, d);
      ReferenceCons(ms, d);
    }
  }

  /** The composite point for date `d`. */
  function CompositePoint(ms: seq<Member>, d: string): (p: Point)
    ensures p.date == d
    ensures p.price == WeightedPrice(ms, d)
    ensures p.p25.Some? <==> AnyBandedEntry(ms, d)
    ensures p.p75.Some? <==> AnyBandedEntry(ms, d)
    ensures p.p25.Some? ==> p.p25.value == WeightedLow(ms, d)
    ensures p.p75.Some? ==> p.p75.value == WeightedHigh(ms, d)
  {
    var t := Accumulate(ms, d);
    AccumulateIsWeightedSum(ms, d);
    Point(d, t.value, if t.bands then Some(t.low) else None, if t.bands then Some(t.high) else None)
  }

  /** One composite point per date of `dates`, in the same order. */
  function Composite(ms: seq<Member>, dates: seq<string>): (r: seq<Point>)
    ensures |r| == |dates|
    ensures forall i :: 0 <= i < |r| ==> r[i].date == dates[i]
    ensures forall i :: 0 <= i < |r| ==> r[i].price == WeightedPrice(ms, dates[i])
    ensures forall i :: 0 <= i < |r| ==>
      (r[i].p25.Some? <==> AnyBandedEntry(ms, dates[i])) && (r[i].p75.Some? <==> AnyBandedEntry(ms, dates[i]))
    ensures forall i :: 0 <= i < |r| && r[i].p25.Some? ==>
      r[i].p25.value == WeightedLow(ms, dates[i]) && r[i].p75.value == WeightedHigh(ms, dates[i])
  {
    seq(|dates|, i requires 0 <= i < |dates| => CompositePoint(ms, dates[i]))
  }

  /** The basket's series: empty for an empty basket, otherwise the
      composite over the dates common to all members. */
  function BasketSeries(b: seq<BasketAsset>, fetched: map<string, seq<Point>>): (r: seq<Point>)
    ensures |b| == 0 ==> r == []
    ensures StrictlyAscending(DatesOf(r))
    ensures forall d :: HasDate(r, d) <==> |b| > 0 && InEveryMember(Members(b, fetched), d)
    ensures forall i :: 0 <= i < |r| ==> r[i].price == WeightedPrice(Members(b, fetched), r[i].date)
    ensures forall i :: 0 <= i < |r| ==>
      (r[i].p25.Some? <==> AnyBandedEntry(Members(b, fetched), r[i].date))
      && (r[i].p75.Some? <==> AnyBandedEntry(Members(b, fetched), r[i].date))
    ensures forall i :: 0 <= i < |r| && r[i].p25.Some? ==>
      && r[i].p25.value == WeightedLow(Members(b, fetched), r[i].date)
      && r[i].p75.value == WeightedHigh(Members(b, fetched), r[i].date)
  {
    if |b| == 0 then []
    else
      var ms := Members(b, fetched);
      var dates := CommonDates(ms);
      var r := Composite(ms, dates);
      assert DatesOf(r) == dates;
      r
  }

  /** A member without data, in particular an id outside the catalogue,
      leaves no common date and so an empty basket series. */
  lemma MemberWithoutDataEmptiesSeries(b: seq<BasketAsset>, fetched: map<string, seq<Point>>, k: int)
    requires 0 <= k < |b|
    requires DataFor(b[k].name, fetched) == []
    ensures BasketSeries(b, fetched) == []
  {
    var r := BasketSeries(b, fetched);
    var ms := Members(b, fetched);
    forall d
      ensures !HasDate(r, d)
    {
      assert !HasDate(ms[k].data, d);
    }
    UndatedIsEmpty(r);
  }

  /** Precondition shared by the single-member lemmas: every point carries
      either both bounds or neither. */
  ghost predicate BoundsPaired(data: seq<Point>)
  {
    forall i :: 0 <= i < |data| ==> (data[i].p25.Some? <==> data[i].p75.Some?)
  }

  /** A single member at weight 100 reproduces, on every date it has, the
      price and (where it carries both) the bounds of its first entry of
      that date. */
  lemma SingleMemberAtFullWeight(m: Member, d: string)
    requires m.asset.weight == 100.0
    requires HasDate(m.data, d)
    ensures var p := CompositePoint([m], d);
      var e := FindDate(m.data, d).value;
      && p.price == e.price
      && (p.p25.Some? <==> HasBands(e))
      && (HasBands(e) ==> p.p25 == e.p25 && p.p75 == e.p75)
  {
    var e := FindDate(m.data, d).value;
    assert WeightedPrice([m], d) == PriceShare(m, d) + WeightedPrice([m][1..], d);
    assert WeightedPrice([m][1..], d) == 0.0;
    assert WeightedLow([m][1..], d) == 0.0;
    assert WeightedHigh([m][1..], d) == 0.0;
    AnyBandedEntryCons([m], d);
    assert !AnyBandedEntry([m][1..], d);
  }

  /** A one-asset basket at weight 100 whose series is sorted by date
      without duplicate dates and pairs its bounds is that very series. */
  lemma SingleAssetBasketIsIdentity(name: string, fetched: map<string, seq<Point>>)
    requires name in Catalog && name in fetched
    requires StrictlyAscending(DatesOf(fetched[name]))
    requires BoundsPaired(fetched[name])
    ensures BasketSeries([BasketAsset(name, 100.0)], fetched) == fetched[name]
  {
    var b := [BasketAsset(name, 100.0)];
    var data := fetched[name];
    var ms := Members(b, fetched);
    assert ms == [Member(b[0], data)];
    var dates := CommonDates(ms);
    assert forall d :: d in dates <==> d in DatesOf(data) by {
      forall d
        ensures d in dates <==> d in DatesOf(data)
      {
        assert InEveryMember(ms, d) <==> HasDate(data, d);
      }
    }
    AscendingUnique(dates, DatesOf(data));
    var r := BasketSeries(b, fetched);
    assert r == Composite(ms, dates);
    forall i | 0 <= i < |data|
      ensures r[i] == data[i]
    {
      var d := data[i].date;
      assert FirstWithDate(data, d, i) by {
        forall j | 0 <= j < i
          ensures data[j].date != d
        {
          AscendingDistinct(DatesOf(data), j, i);
        }
      }
      var k :| FirstWithDate(data, d, k) && FindDate(data, d).value == data[k];
      FirstWithDateUnique(data, d, i, k);
      SingleMemberAtFullWeight(ms[0], d);
    }
  }
}
