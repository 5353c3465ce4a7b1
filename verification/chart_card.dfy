/**
 * The chart card (src/assets/components/ChartCard.js): the "Price Trends"
 * chart, which plots a sorted copy of the yearly series in an 800 x 250
 * box with 40 units of padding and summarises it, the "Regional Analysis"
 * list, which keeps the rows with a positive median price and shows the
 * first five, and the "Feature Importance" list, which shows the first
 * five features under their display names.
 *
 * The fetches that deliver the data are not modelled: each card is a
 * function of the data it received.
 */
module Chart {
  import opened Wrappers
  import opened Decimal
  import opened Seqs
  import opened Shorthand

  // ---------------------------------------------------------------------
  // Price trends: data

  /** One element of the `/history` reply. */
  datatype HistoryPoint = HistoryPoint(year: int, avgMedianPrice: real)

  function YearKey(p: HistoryPoint): real { p.year as real }

  /** `[...chartData].sort((a, b) => a.year - b.year)`: an ascending copy. */
  function SortByYear(data: seq<HistoryPoint>): (sorted: seq<HistoryPoint>)
    ensures multiset(sorted) == multiset(data) && |sorted| == |data|
    ensures forall i, j | 0 <= i < j < |sorted| :: sorted[i].year <= sorted[j].year
  {
    var r := SortBy(data, YearKey);
    assert forall i, j | 0 <= i < j < |r| :: YearKey(r[i]) <= YearKey(r[j]);
    r
  }

  function Prices(s: seq<HistoryPoint>): (ps: seq<real>)
    ensures |ps| == |s| && forall i | 0 <= i < |s| :: ps[i] == s[i].avgMedianPrice
  {
    seq(|s|, i requires 0 <= i < |s| => s[i].avgMedianPrice)
  }

  function Years(s: seq<HistoryPoint>): (ys: seq<int>)
    ensures |ys| == |s| && forall i | 0 <= i < |s| :: ys[i] == s[i].year
  {
    seq(|s|, i requires 0 <= i < |s| => s[i].year)
  }

  // ---------------------------------------------------------------------
  // Price trends: projection

  const Padding: real := 40.0
  const ChartWidth: real := 800.0 - Padding * 2.0
  const ChartHeight: real := 250.0 - Padding * 2.0
  /** The y of the bottom edge of the plot area. */
  const Baseline: real := Padding + ChartHeight

  /** A plotted sample. */
  datatype Point = Point(x: real, y: real, data: HistoryPoint)

  /** `padding + (idx / (n - 1)) * chartWidth`. */
  function PointX(idx: nat, n: nat): (x: real)
    requires n >= 2
    ensures idx < n ==> Padding <= x <= Padding + ChartWidth
  {
    Padding + (idx as real / (n - 1) as real) * ChartWidth
  }

  /** `padding + chartHeight - ((price - minPrice) / priceRange) * chartHeight`. */
  function PointY(price: real, minPrice: real, priceRange: real): (y: real)
    requires priceRange != 0.0
    ensures priceRange > 0.0 && minPrice <= price <= minPrice + priceRange ==> Padding <= y <= Baseline
  {
    Padding + ChartHeight - ((price - minPrice) / priceRange) * ChartHeight
  }

  /**
   * The points of the chart. The code divides by `n - 1` and by the price
   * range without a guard; both must be non-zero for the coordinates to be
   * numbers.
   */
  function Project(sorted: seq<HistoryPoint>): (points: seq<Point>)
    requires |sorted| >= 2
    requires MinReal(Prices(sorted)) < MaxReal(Prices(sorted))
    ensures |points| == |sorted|
    ensures forall i | 0 <= i < |sorted| :: points[i].data == sorted[i]
  {
    var lo := MinReal(Prices(sorted));
    var range := MaxReal(Prices(sorted)) - lo;
    seq(|sorted|, i requires 0 <= i < |sorted| =>
      Point(PointX(i, |sorted|), PointY(sorted[i].avgMedianPrice, lo, range), sorted[i]))
  }

  lemma ProjectAt(sorted: seq<HistoryPoint>, i: nat)
    requires |sorted| >= 2
    requires MinReal(Prices(sorted)) < MaxReal(Prices(sorted))
    requires i < |sorted|
    ensures Project(sorted)[i].x == PointX(i, |sorted|)
    ensures Project(sorted)[i].y
      == PointY(sorted[i].avgMedianPrice, MinReal(Prices(sorted)), MaxReal(Prices(sorted)) - MinReal(Prices(sorted)))
  {
  }

  /** The first sample sits on the left edge of the plot area and the last on its right edge. */
  lemma ProjectEnds(sorted: seq<HistoryPoint>)
    requires |sorted| >= 2
    requires MinReal(Prices(sorted)) < MaxReal(Prices(sorted))
    ensures Project(sorted)[0].x == Padding
    ensures Project(sorted)[|sorted| - 1].x == Padding + ChartWidth
  {
    ProjectAt(sorted, 0);
    ProjectAt(sorted, |sorted| - 1);
    XEnds(|sorted|);
  }

  lemma XEnds(n: nat)
    requires n >= 2
    ensures PointX(0, n) == Padding && PointX(n - 1, n) == Padding + ChartWidth
  {
    var m := (n - 1) as real;
    assert m / m == 1.0;
  }

  lemma XStrict(i: nat, j: nat, n: nat)
    requires i < j < n && n >= 2
    ensures PointX(i, n) < PointX(j, n)
  {
    var m := (n - 1) as real;
    assert j as real / m - i as real / m == (j - i) as real / m;
  }

  /** Later samples lie strictly further right. */
  lemma ProjectXIncreasing(sorted: seq<HistoryPoint>)
    requires |sorted| >= 2
    requires MinReal(Prices(sorted)) < MaxReal(Prices(sorted))
    ensures forall i, j | 0 <= i < j < |sorted| :: Project(sorted)[i].x < Project(sorted)[j].x
  {
    forall i, j | 0 <= i < j < |sorted| ensures Project(sorted)[i].x < Project(sorted)[j].x {
      ProjectAt(sorted, i);
      ProjectAt(sorted, j);
      XStrict(i, j, |sorted|);
    }
  }

  lemma FractionFacts(a: real, b: real)
    requires 0.0 <= a <= b && b > 0.0
    ensures 0.0 <= a / b <= 1.0
    ensures a / b == 0.0 <==> a == 0.0
    ensures a / b == 1.0 <==> a == b
  {
    assert (a / b) * b == a;
  }

  /** A price between the extremes is drawn inside the plot area, on its edges exactly at the extremes. */
  lemma YFacts(p: real, lo: real, hi: real)
    requires lo <= p <= hi && lo < hi
    ensures Padding <= PointY(p, lo, hi - lo) <= Baseline
    ensures PointY(p, lo, hi - lo) == Baseline <==> p == lo
    ensures PointY(p, lo, hi - lo) == Padding <==> p == hi
  {
    FractionFacts(p - lo, hi - lo);
  }

  /** A higher price is drawn higher up, that is at a smaller y. */
  lemma YMonotone(p: real, q: real, lo: real, range: real)
    requires range > 0.0
    ensures p < q <==> PointY(q, lo, range) < PointY(p, lo, range)
  {
    assert (q - lo) / range - (p - lo) / range == (q - p) / range;
  }

  /**
   * Every y lies in [40, 210]; the cheapest years are drawn on the bottom
   * edge and the dearest on the top edge, and no others.
   */
  lemma ProjectYBounds(sorted: seq<HistoryPoint>)
    requires |sorted| >= 2
    requires MinReal(Prices(sorted)) < MaxReal(Prices(sorted))
    ensures forall i | 0 <= i < |sorted| :: Padding <= Project(sorted)[i].y <= Baseline
    ensures forall i | 0 <= i < |sorted| ::
      Project(sorted)[i].y == Baseline <==> sorted[i].avgMedianPrice == MinReal(Prices(sorted))
    ensures forall i | 0 <= i < |sorted| ::
      Project(sorted)[i].y == Padding <==> sorted[i].avgMedianPrice == MaxReal(Prices(sorted))
  {
    var lo, hi := MinReal(Prices(sorted)), MaxReal(Prices(sorted));
    forall i | 0 <= i < |sorted|
      ensures Padding <= Project(sorted)[i].y <= Baseline
      ensures Project(sorted)[i].y == Baseline <==> sorted[i].avgMedianPrice == lo
      ensures Project(sorted)[i].y == Padding <==> sorted[i].avgMedianPrice == hi
    {
      ProjectAt(sorted, i);
      assert Prices(sorted)[i] in Prices(sorted);
      YFacts(sorted[i].avgMedianPrice, lo, hi);
    }
  }

  /** Of two samples, the dearer one is drawn higher. */
  lemma ProjectYOrder(sorted: seq<HistoryPoint>)
    requires |sorted| >= 2
    requires MinReal(Prices(sorted)) < MaxReal(Prices(sorted))
    ensures forall i, j | 0 <= i < |sorted| && 0 <= j < |sorted| ::
      sorted[i].avgMedianPrice < sorted[j].avgMedianPrice <==> Project(sorted)[j].y < Project(sorted)[i].y
  {
    var lo, hi := MinReal(Prices(sorted)), MaxReal(Prices(sorted));
    forall i, j | 0 <= i < |sorted| && 0 <= j < |sorted|
      ensures sorted[i].avgMedianPrice < sorted[j].avgMedianPrice <==> Project(sorted)[j].y < Project(sorted)[i].y
    {
      ProjectAt(sorted, i);
      ProjectAt(sorted, j);
      YMonotone(sorted[i].avgMedianPrice, sorted[j].avgMedianPrice, lo, hi - lo);
    }
  }

  // ---------------------------------------------------------------------
  // Price trends: SVG paths

  /** One SVG path command: "M x y", "L x y" or "Z". */
  datatype PathCommand = MoveTo(x: real, y: real) | LineTo(x: real, y: real) | ClosePath

  /** `pathData`: "M" to the first point, then "L" to each later one. */
  function LinePath(points: seq<Point>): (path: seq<PathCommand>)
    ensures |path| == |points|
    ensures forall i | 0 <= i < |points| :: Target(path[i]) == Some((points[i].x, points[i].y))
    ensures forall i | 0 <= i < |points| :: path[i].MoveTo? <==> i == 0
  {
    seq(|points|, i requires 0 <= i < |points| =>
      if i == 0 then MoveTo(points[i].x, points[i].y) else LineTo(points[i].x, points[i].y))
  }

  /** `areaData`: the line, down to the baseline under the last point, left along it, closed. */
  function AreaPath(points: seq<Point>): (path: seq<PathCommand>)
    requires points != []
    ensures |path| == |points| + 3
    ensures path[..|points|] == LinePath(points)
    ensures forall i | |points| <= i < |path| - 1 :: path[i].LineTo? && path[i].y == Baseline
    ensures path[|path| - 1] == ClosePath
  {
    LinePath(points) + [LineTo(points[|points| - 1].x, Baseline), LineTo(Padding, Baseline), ClosePath]
  }

  /** The point a command moves or draws to, if any. */
  function Target(c: PathCommand): Option<(real, real)> {
    match c
    case MoveTo(x, y) => Some((x, y))
    case LineTo(x, y) => Some((x, y))
    case ClosePath => None
  }

  /** The command stays within the plot area of the 800 x 250 box. */
  predicate InPlotArea(c: PathCommand) {
    c.ClosePath? || (Padding <= c.x <= Padding + ChartWidth && Padding <= c.y <= Baseline)
  }


  /**
   * The area is the line followed by the bottom-right and bottom-left
   * corners of the plot area, closed back to the first point, which lies on
   * the left edge.
   */
  lemma AreaClosesAlongBaseline(sorted: seq<HistoryPoint>)
    requires |sorted| >= 2
    requires MinReal(Prices(sorted)) < MaxReal(Prices(sorted))
    ensures var points := Project(sorted);
      var area := AreaPath(points);
      area[..|points|] == LinePath(points)
      && area[|points|..] == [LineTo(Padding + ChartWidth, Baseline), LineTo(Padding, Baseline), ClosePath]
      && area[0] == MoveTo(Padding, points[0].y)
  {
    ProjectEnds(sorted);
    var points := Project(sorted);
    assert AreaPath(points)[0] == LinePath(points)[0];
  }

  /** Every plotted point lies within the plot area. */
  predicate PointsInPlotArea(points: seq<Point>) {
    forall i | 0 <= i < |points| ::
      Padding <= points[i].x <= Padding + ChartWidth && Padding <= points[i].y <= Baseline
  }

  lemma ProjectInPlotArea(sorted: seq<HistoryPoint>)
    requires |sorted| >= 2
    requires MinReal(Prices(sorted)) < MaxReal(Prices(sorted))
    ensures PointsInPlotArea(Project(sorted))
  {
    var points := Project(sorted);
    ProjectEnds(sorted);
    ProjectXIncreasing(sorted);
    ProjectYBounds(sorted);
    forall i | 0 <= i < |points| ensures Padding <= points[i].x <= Padding + ChartWidth {
      if 0 < i {
        assert points[0].x < points[i].x;
      }
      if i < |points| - 1 {
        assert points[i].x < points[|points| - 1].x;
      }
    }
  }

  /** Paths through points within the plot area stay within it. */
  lemma PathsOfPointsInPlotArea(points: seq<Point>)
    requires points != [] && PointsInPlotArea(points)
    ensures forall c | c in LinePath(points) :: InPlotArea(c)
    ensures forall c | c in AreaPath(points) :: InPlotArea(c)
  {
    assert forall i | 0 <= i < |points| :: InPlotArea(LinePath(points)[i]);
    var area := AreaPath(points);
    assert forall i | 0 <= i < |area| :: InPlotArea(area[i]);
  }

  /** Both paths of the chart stay within the plot area. */
  lemma PathsInPlotArea(sorted: seq<HistoryPoint>)
    requires |sorted| >= 2
    requires MinReal(Prices(sorted)) < MaxReal(Prices(sorted))
    ensures forall c | c in LinePath(Project(sorted)) :: InPlotArea(c)
    ensures forall c | c in AreaPath(Project(sorted)) :: InPlotArea(c)
  {
    ProjectInPlotArea(sorted);
    PathsOfPointsInPlotArea(Project(sorted));
  }

  // ---------------------------------------------------------------------
  // Price trends: summary and view

  /** Period, record count, average and price range, all over `chartData` itself. */
  datatype Summary = Summary(
    firstYear: int, lastYear: int, records: nat, average: real, lowest: real, highest: real)

  function Summarize(data: seq<HistoryPoint>): (r: Summary)
    requires data != []
    ensures r.firstYear <= r.lastYear
    ensures r.lowest <= r.average <= r.highest
    ensures r.average == Sum(Prices(data)) / |data| as real
    ensures r.records == |data|
  {
    MeanBetweenMinAndMax(Prices(data));
    Summary(
      MinInt(Years(data)), MaxInt(Years(data)), |data|,
      Mean(Prices(data)), MinReal(Prices(data)), MaxReal(Prices(data)))
  }

  /** "$" and the price in thousands to no decimals, then "K". */
  function PriceLabel(price: real): (text: string)
    ensures |text| >= 3 && text[0] == '$' && text[|text| - 1] == 'K'
  {
    ToFixedEnds(price / 1000.0, 0);
    "$" + ToFixed(price / 1000.0, 0) + "K"
  }

  /** A price label reads as the price rounded to whole thousands, at most 500 off. */
  lemma PriceLabelValue(price: real)
    ensures var text := PriceLabel(price);
      ParseFloat(text[1..|text| - 1]) == Some(FixedValue(price / 1000.0, 0))
    ensures Abs(FixedValue(price / 1000.0, 0) * 1000.0 - price) <= 500.0
  {
    PriceLabelDigits(price);
    assert Pow10(0) == 1;
    FixedReading(price / 1000.0, 0, 0.5);
    ScaledError(FixedValue(price / 1000.0, 0), price / 1000.0, 1000.0, 0.5);
  }

  lemma PriceLabelDigits(price: real)
    ensures var text := PriceLabel(price);
      text[1..|text| - 1] == ToFixed(price / 1000.0, 0)
  {
  }

  /** `x.toFixed(d)` reads back as x rounded to d decimals, within `half` of x. */
  lemma FixedReading(x: real, d: nat, half: real)
    requires half == 0.5 / Pow10(d) as real
    ensures ParseFloat(ToFixed(x, d)) == Some(FixedValue(x, d))
    ensures Abs(FixedValue(x, d) - x) <= half
  {
    ToFixedReadsBack(x, d);
    FixedValueError(x, d);
  }

  /** What the "Price Trends" card shows once loaded. */
  datatype TrendView =
    | NoData
      /** One sample or one price: the code divides by zero and the geometry is not finite. */
    | NonFinite(summary: Summary)
    | Trends(summary: Summary, points: seq<Point>, line: seq<PathCommand>, area: seq<PathCommand>)

  /** All samples carry the same price. */
  predicate FlatPrices(data: seq<HistoryPoint>) {
    forall i, j | 0 <= i < |data| && 0 <= j < |data| :: data[i].avgMedianPrice == data[j].avgMedianPrice
  }

  function PriceTrends(data: seq<HistoryPoint>): (v: TrendView)
    ensures v.NoData? <==> data == []
    ensures v.NonFinite? <==> data != [] && (|data| == 1 || FlatPrices(data))
    ensures v.Trends? ==> v.summary == Summarize(data) && |v.points| == |data|
  {
    if data == [] then NoData
    else
      var sorted := SortByYear(data);
      SameExtremes(data, sorted);
      FlatIffExtremesMeet(data);
      if |sorted| < 2 || MinReal(Prices(sorted)) == MaxReal(Prices(sorted)) then
        NonFinite(Summarize(data))
      else
        var points := Project(sorted);
        Trends(Summarize(data), points, LinePath(points), AreaPath(points))
  }

  lemma PricesOfPermutation(a: seq<HistoryPoint>, b: seq<HistoryPoint>)
    requires multiset(a) == multiset(b)
    ensures forall x | x in Prices(a) :: x in Prices(b)
  {
    PermutationMembers(a, b);
    forall x | x in Prices(a) ensures x in Prices(b) {
      var i :| 0 <= i < |a| && Prices(a)[i] == x;
      assert a[i] in b;
      var j :| 0 <= j < |b| && b[j] == a[i];
      assert Prices(b)[j] == x;
    }
  }

  lemma YearsOfPermutation(a: seq<HistoryPoint>, b: seq<HistoryPoint>)
    requires multiset(a) == multiset(b)
    ensures forall y | y in Years(a) :: y in Years(b)
  {
    PermutationMembers(a, b);
    forall y | y in Years(a) ensures y in Years(b) {
      var i :| 0 <= i < |a| && Years(a)[i] == y;
      assert a[i] in b;
      var j :| 0 <= j < |b| && b[j] == a[i];
      assert Years(b)[j] == y;
    }
  }

  /** A permutation has the same lowest and highest price. */
  lemma SameExtremes(a: seq<HistoryPoint>, b: seq<HistoryPoint>)
    requires a != [] && multiset(a) == multiset(b)
    ensures b != []
    ensures MinReal(Prices(a)) == MinReal(Prices(b)) && MaxReal(Prices(a)) == MaxReal(Prices(b))
  {
    assert |a| == |multiset(a)| == |b|;
    PricesOfPermutation(a, b);
    PricesOfPermutation(b, a);
  }

  lemma FlatIffExtremesMeet(data: seq<HistoryPoint>)
    requires data != []
    ensures FlatPrices(data) <==> MinReal(Prices(data)) == MaxReal(Prices(data))
  {
    var ps := Prices(data);
    if MinReal(ps) == MaxReal(ps) {
      forall i, j | 0 <= i < |data| && 0 <= j < |data|
        ensures data[i].avgMedianPrice == data[j].avgMedianPrice
      {
        assert ps[i] in ps && ps[j] in ps;
      }
    } else {
      var i :| 0 <= i < |ps| && ps[i] == MinReal(ps);
      var j :| 0 <= j < |ps| && ps[j] == MaxReal(ps);
      assert data[i].avgMedianPrice != data[j].avgMedianPrice;
    }
  }

  /**
   * The summary agrees with the chart: the period runs from the first to the
   * last plotted year, and the price range from the price on the bottom
   * edge to the price on the top edge.
   */
  lemma SummaryMatchesChart(data: seq<HistoryPoint>)
    requires data != []
    ensures var sorted := SortByYear(data);
      Summarize(data).firstYear == sorted[0].year
      && Summarize(data).lastYear == sorted[|sorted| - 1].year
      && Summarize(data).lowest == MinReal(Prices(sorted))
      && Summarize(data).highest == MaxReal(Prices(sorted))
  {
    SameExtremes(data, SortByYear(data));
    PeriodOfSorted(data);
  }

  /** The earliest and latest years are those of the first and last element of the sorted copy. */
  lemma PeriodOfSorted(data: seq<HistoryPoint>)
    requires data != []
    ensures var sorted := SortByYear(data);
      MinInt(Years(data)) == sorted[0].year && MaxInt(Years(data)) == sorted[|sorted| - 1].year
  {
    var sorted := SortByYear(data);
    YearsOfPermutation(data, sorted);
    YearsOfPermutation(sorted, data);
    var lo := MinInt(Years(data));
    var hi := MaxInt(Years(data));
    assert Years(sorted)[0] in Years(sorted);
    assert Years(sorted)[|sorted| - 1] in Years(sorted);
    var i :| 0 <= i < |sorted| && Years(sorted)[i] == lo;
    var j :| 0 <= j < |sorted| && Years(sorted)[j] == hi;
    assert sorted[0].year <= sorted[i].year;
    assert sorted[j].year <= sorted[|sorted| - 1].year;
  }

  // ---------------------------------------------------------------------
  // Regional analysis

  /** One element of the `/regional-analysis` reply, its price as a JavaScript value. */
  datatype RegionItem = RegionItem(region: string, medianPrice: Value)

  /** `item.median_price && !isNaN(item.median_price) && item.median_price > 0`. */
  predicate IsShownRegion(item: RegionItem) {
    Truthy(item.medianPrice)
    && ToNumber(item.medianPrice).Some?
    && ToNumber(item.medianPrice).value > 0.0
  }

  /** The truthiness test is implied by the other two: a row is kept iff its price is a positive number. */
  lemma ShownRegionIffPositive(item: RegionItem)
    ensures IsShownRegion(item) <==> exists v :: ToNumber(item.medianPrice) == Some(v) && v > 0.0
  {
    if ToNumber(item.medianPrice).Some? && ToNumber(item.medianPrice).value > 0.0 {
      if item.medianPrice.Text? {
        assert item.medianPrice.s != [];
      }
    }
  }

  /** `data.filter(...)`. */
  function RegionalFilter(data: seq<RegionItem>): (valid: seq<RegionItem>)
    ensures |valid| <= |data|
    ensures forall item :: item in valid <==> item in data && IsShownRegion(item)
  {
    if data == [] then []
    else
      assert forall item :: item in data <==> item == data[0] || item in data[1..];
      Kept(data[0]) + RegionalFilter(data[1..])
  }

  /** What the filter keeps of one item. */
  function Kept(item: RegionItem): seq<RegionItem> {
    if IsShownRegion(item) then [item] else []
  }

  /** Filtering keeps the order: it distributes over concatenation. */
  lemma {:induction false} RegionalFilterAppend(a: seq<RegionItem>, b: seq<RegionItem>)
    ensures RegionalFilter(a + b) == RegionalFilter(a) + RegionalFilter(b)
  {
    if a != [] {
      assert (a + b)[0] == a[0];
      assert (a + b)[1..] == a[1..] + b;
      RegionalFilterAppend(a[1..], b);
      var head := Kept(a[0]);
      calc {
        RegionalFilter(a + b);
        head + RegionalFilter(a[1..] + b);
        head + (RegionalFilter(a[1..]) + RegionalFilter(b));
        (head + RegionalFilter(a[1..])) + RegionalFilter(b);
        RegionalFilter(a) + RegionalFilter(b);
      }
    } else {
      assert a + b == b;
    }
  }

  /** `chartData.slice(0, 5)` after the filter: the regions listed. */
  function TopRegions(data: seq<RegionItem>): (shown: seq<RegionItem>)
    ensures |shown| <= 5
    ensures forall item | item in shown :: item in data && IsShownRegion(item)
    ensures |RegionalFilter(data)| <= 5 ==> shown == RegionalFilter(data)
    ensures |shown| == (if |RegionalFilter(data)| < 5 then |RegionalFilter(data)| else 5)
    ensures forall i | 0 <= i < |shown| :: shown[i] == RegionalFilter(data)[i]
  {
    var valid := RegionalFilter(data);
    var shown := Take(valid, 5);
    assert forall item | item in shown :: item in valid;
    shown
  }

  // ---------------------------------------------------------------------
  // Feature importance

  /** One element of the `/feature-importance` reply. */
  datatype FeatureItem = FeatureItem(feature: string, importance: real)

  const FeatureNameMap: map<string, string> := map[
    "CA_lag1" := "Previous Year Price",
    "population" := "California Population",
    "total_housing_units" := "Total Housing Units",
    "total_debt" := "Total Consumer Debt",
    "avg_property_tax" := "Average Property Tax"]

  /** `featureNameMap[item.feature] || item.feature`. */
  function DisplayName(feature: string): (name: string)
    ensures feature in FeatureNameMap ==> name == FeatureNameMap[feature] && name != feature
    ensures feature !in FeatureNameMap ==> name == feature
  {
    if feature in FeatureNameMap then FeatureNameMap[feature] else feature
  }

  /** The five model inputs get five different names, each different from its key. */
  lemma DisplayNamesDistinct()
    ensures forall a, b | a in FeatureNameMap && b in FeatureNameMap && a != b :: DisplayName(a) != DisplayName(b)
    ensures forall a | a in FeatureNameMap :: DisplayName(a) != a
  {
  }

  /** A listed feature: its name, its importance to 4 decimals, and its bar width in percent. */
  datatype FeatureRow = FeatureRow(name: string, value: string, barPercent: real)

  function FeatureRowOf(item: FeatureItem): FeatureRow {
    FeatureRow(DisplayName(item.feature), ToFixed(item.importance, 4), Abs(item.importance) * 100.0)
  }

  /** `chartData.slice(0, 5).map(...)`. */
  function FeatureRows(items: seq<FeatureItem>): (rows: seq<FeatureRow>)
    ensures |rows| == if |items| < 5 then |items| else 5
    ensures forall i | 0 <= i < |rows| :: rows[i] == FeatureRowOf(items[i])
  {
    var top := Take(items, 5);
    seq(|top|, i requires 0 <= i < |top| => FeatureRowOf(top[i]))
  }

  /** A row's value reads as the importance rounded to 4 decimals, at most 0.00005 off; its bar is never negative. */
  lemma FeatureRowValue(item: FeatureItem)
    ensures ParseFloat(FeatureRowOf(item).value) == Some(FixedValue(item.importance, 4))
    ensures Abs(FixedValue(item.importance, 4) - item.importance) <= 0.00005
    ensures FeatureRowOf(item).barPercent >= 0.0
  {
    assert Pow10(4) == 10000 by {
      assert Pow10(1) == 10 && Pow10(2) == 100 && Pow10(3) == 1000;
    }
    FixedReading(item.importance, 4, 0.00005);
  }

  /** Descending order of importance. */
  function ImportanceDescending(item: FeatureItem): real { -item.importance }

  /**
   * When the reply is ordered by importance, highest first, the listed rows
   * are the five most important features.
   */
  lemma ListedAreMostImportant(items: seq<FeatureItem>)
    requires SortedBy(items, ImportanceDescending)
    ensures forall i, j | 0 <= i < |FeatureRows(items)| <= j < |items| ::
      items[j].importance <= items[i].importance
  {
    forall i, j | 0 <= i < |FeatureRows(items)| <= j < |items|
      ensures items[j].importance <= items[i].importance
    {
      assert ImportanceDescending(items[i]) <= ImportanceDescending(items[j]);
    }
  }
}
