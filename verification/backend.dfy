/**
 * The data shaping of the prediction service (app.py): the regional price
 * list built from the last row of the regional CSV, the coefficient-based
 * importance ranking, the `/latest` record with its previous-year lag and
 * property-tax fallback, the `/stats` aggregates and the feature vector of
 * `/predict`.
 *
 * Reading CSV and pickle files is I/O: a frame that was read arrives as a
 * parameter, and a failed read as an error value. The regression model and
 * its scalers are not part of this model.
 */
module Backend {
  import opened Wrappers
  import opened Decimal
  import opened Seqs
  import Shorthand
  import Form
  import Chart

  /** An error reply: its HTTP status and message. */
  datatype Failure = Failure(status: int, message: string)

  // ---------------------------------------------------------------------
  // Regional analysis

  /** A CSV cell as pandas reads it: text, or a number (`None` is NaN). */
  datatype Cell = StrCell(s: string) | NumCell(x: Option<real>)

  /** A frame read from a CSV file: column labels, then rows of cells. */
  datatype Frame = Frame(columns: seq<string>, rows: seq<seq<Cell>>)

  /** What `read_csv` guarantees: at least one column, and one cell per column in every row. */
  predicate WellFormed(f: Frame) {
    |f.columns| >= 1 && forall r | r in f.rows :: |r| == |f.columns|
  }

  /** `value.replace('$', '').replace(',', '')`. */
  function StripCurrency(s: string): (t: string)
    ensures |t| <= |s|
    ensures forall i | 0 <= i < |t| :: t[i] != '$' && t[i] != ','
  {
    if s == [] then []
    else (if s[0] == '$' || s[0] == ',' then [] else [s[0]]) + StripCurrency(s[1..])
  }

  /** Text without dollar signs or commas is left as it is; so stripping twice is stripping once. */
  lemma {:induction false} StripCurrencyOfClean(s: string)
    requires forall i | 0 <= i < |s| :: s[i] != '$' && s[i] != ','
    ensures StripCurrency(s) == s
  {
    if s != [] {
      StripCurrencyOfClean(s[1..]);
      assert s == [s[0]] + s[1..];
    }
  }

  /** Stripping distributes over concatenation: every other character is kept, in order. */
  lemma {:induction false} StripCurrencyAppend(a: string, b: string)
    ensures StripCurrency(a + b) == StripCurrency(a) + StripCurrency(b)
  {
    if a == [] {
      assert a + b == b;
    } else {
      assert (a + b)[0] == a[0];
      assert (a + b)[1..] == a[1..] + b;
      StripCurrencyAppend(a[1..], b);
    }
  }

  /**
   * `float(s)` on decimal text: surrounding white space, a sign, digits with
   * at most one dot and an optional exponent part ("1e3"). It reads such text as JavaScript's `Number` does, except
   * that blank text raises instead of giving 0; `None` is the raise.
   */
  function PyFloat(s: string): Option<real> {
    if Trim(s) == [] then None else NumberOf(s)
  }

  /** The price a cell holds, once cleaned: `None` when `float` raises or gives NaN. */
  function CellPrice(c: Cell): Option<real> {
    match c
    case StrCell(s) => PyFloat(StripCurrency(s))
    case NumCell(x) => x
  }

  /**
   * A price cell whose text is digits once "$" and "," are removed, such as
   * "$1,250,000", holds the value of those digits.
   */
  lemma CellPriceOfDecorated(s: string, digits: string)
    requires StripCurrency(s) == digits
    requires digits != [] && AllDigits(digits)
    ensures CellPrice(StrCell(s)) == Some(DigitsValue(digits) as real)
  {
    TrimOfTrimmed(digits);
    ScanDigits(digits);
  }

  /** One element of the `/regional-analysis` reply. */
  datatype Region = Region(region: string, medianPrice: real)

  /** What the loop appends for one column: its region when the price is a positive number. */
  function RegionEntry(column: string, cell: Cell): seq<Region> {
    match CellPrice(cell)
    case Some(p) => if p > 0.0 then [Region(column, p)] else []
    case None => []
  }

  /** The list after the loop has visited columns 1 .. n - 1. */
  function Collected(columns: seq<string>, row: seq<Cell>, n: nat): (rs: seq<Region>)
    requires 1 <= n <= |columns| == |row|
    ensures |rs| <= n - 1
    ensures forall r | r in rs :: r.medianPrice > 0.0
  {
    if n == 1 then [] else Collected(columns, row, n - 1) + RegionEntry(columns[n - 1], row[n - 1])
  }

  /**
   * A region is listed iff it is the label of a column after the first
   * whose cell holds a positive price, which is the price listed.
   */
  lemma {:induction false} CollectedMembers(columns: seq<string>, row: seq<Cell>, n: nat)
    requires 1 <= n <= |columns| == |row|
    ensures forall r | r in Collected(columns, row, n) :: r.medianPrice > 0.0
    ensures forall r :: r in Collected(columns, row, n) <==>
      exists k | 1 <= k < n :: RegionEntry(columns[k], row[k]) == [r]
  {
    if n > 1 {
      CollectedMembers(columns, row, n - 1);
      var e := RegionEntry(columns[n - 1], row[n - 1]);
      assert e == [] || |e| == 1;
      forall r ensures r in Collected(columns, row, n) <==>
        exists k | 1 <= k < n :: RegionEntry(columns[k], row[k]) == [r]
      {
        if r in e {
          assert RegionEntry(columns[n - 1], row[n - 1]) == [r];
        }
      }
    }
  }

  function PriceDescending(r: Region): real { -r.medianPrice }

  /**
   * `regional_analysis`. `csv` is the regional price table, or the message
   * of the exception raised while reading it.
   */
  method RegionalAnalysis(csv: Result<Frame, string>) returns (reply: Result<seq<Region>, Failure>)
    requires csv.Ok? ==> WellFormed(csv.value)
    ensures reply.Err? <==> csv.Err? || csv.value.rows == []
    ensures reply.Err? ==> reply.error.status == 500
    ensures reply.Ok? ==> reply.value == SortBy(LatestEntries(csv.value), PriceDescending)
    ensures reply.Ok? ==> multiset(reply.value) == multiset(LatestEntries(csv.value))
    ensures reply.Ok? ==>
      forall i, j | 0 <= i < j < |reply.value| :: reply.value[i].medianPrice >= reply.value[j].medianPrice
  {
    if csv.Err? {
      return Err(Failure(500, csv.error));
    }
    var df := csv.value;
    if df.rows == [] {
      return Err(Failure(500, "single positional indexer is out-of-bounds"));
    }
    var regionalData := CollectRegions(df);
    regionalData := SortBy(regionalData, PriceDescending);
    DescendingPrices(regionalData);
    return Ok(regionalData);
  }

  /** The regions the loop collects from the last row of `f`. */
  function LatestEntries(f: Frame): seq<Region>
    requires WellFormed(f) && f.rows != []
  {
    var latestRow := f.rows[|f.rows| - 1];
    assert latestRow in f.rows;
    Collected(f.columns, latestRow, |f.columns|)
  }

  /** The loop of `regional_analysis`: columns after the first, in order, appending each positive price. */
  method CollectRegions(df: Frame) returns (regionalData: seq<Region>)
    requires WellFormed(df) && df.rows != []
    ensures regionalData == LatestEntries(df)
  {
    var columns := df.columns;
    var latestRow := df.rows[|df.rows| - 1];
    assert latestRow in df.rows;
    regionalData := [];
    var i := 1;
    while i < |columns|
      invariant 1 <= i <= |columns|
      invariant regionalData == Collected(columns, latestRow, i)
    {
      regionalData := regionalData + RegionEntry(columns[i], latestRow[i]);
      i := i + 1;
    }
  }

  lemma DescendingPrices(rs: seq<Region>)
    requires SortedBy(rs, PriceDescending)
    ensures forall i, j | 0 <= i < j < |rs| :: rs[i].medianPrice >= rs[j].medianPrice
  {
    assert forall i, j | 0 <= i < j < |rs| :: PriceDescending(rs[i]) <= PriceDescending(rs[j]);
  }

  /** How the card receives a region: the price as a JavaScript number. */
  function AsRegionItem(r: Region): Chart.RegionItem {
    Chart.RegionItem(r.region, Shorthand.Num(r.medianPrice))
  }

  function AsRegionItems(rs: seq<Region>): (items: seq<Chart.RegionItem>)
    ensures |items| == |rs| && forall i | 0 <= i < |rs| :: items[i] == AsRegionItem(rs[i])
  {
    seq(|rs|, i requires 0 <= i < |rs| => AsRegionItem(rs[i]))
  }

  /**
   * The card's filter keeps every region the service lists, so the card
   * shows the five dearest regions.
   */
  lemma {:induction false} CardKeepsServiceRegions(rs: seq<Region>)
    requires forall r | r in rs :: r.medianPrice > 0.0
    ensures Chart.RegionalFilter(AsRegionItems(rs)) == AsRegionItems(rs)
  {
    if rs != [] {
      var items := AsRegionItems(rs);
      assert rs[0] in rs;
      PositiveRegionKept(rs[0]);
      assert items[1..] == AsRegionItems(rs[1..]);
      assert forall r | r in rs[1..] :: r in rs;
      CardKeepsServiceRegions(rs[1..]);
      assert items == [items[0]] + items[1..];
    }
  }

  /** A region with a positive price passes the card's filter. */
  lemma PositiveRegionKept(r: Region)
    requires r.medianPrice > 0.0
    ensures Chart.Kept(AsRegionItem(r)) == [AsRegionItem(r)]
  {
  }

  // ---------------------------------------------------------------------
  // Feature importance fallback

  /** `[{'feature': f, 'importance': abs(c)} for f, c in zip(names, coefs)]`. */
  function CoefficientImportance(names: seq<string>, coefs: seq<real>): (r: seq<Chart.FeatureItem>)
    ensures |r| == if |names| < |coefs| then |names| else |coefs|
    ensures forall x | x in r :: x.importance >= 0.0
  {
    var n := if |names| < |coefs| then |names| else |coefs|;
    seq(n, i requires 0 <= i < n => Chart.FeatureItem(names[i], Abs(coefs[i])))
  }

  /**
   * `feature_importance`: the stored importances when the file exists,
   * otherwise the coefficients' absolute values, largest first; the sort
   * is stable, so equal importances keep their order in the coefficient list.
   */
  method FeatureImportance(stored: Option<seq<Chart.FeatureItem>>, names: seq<string>, coefs: seq<real>)
    returns (importanceData: seq<Chart.FeatureItem>)
    ensures stored.Some? ==> importanceData == stored.value
    ensures stored.None? ==>
      multiset(importanceData) == multiset(CoefficientImportance(names, coefs))
      && SortedBy(importanceData, Chart.ImportanceDescending)
      && (forall x | x in importanceData :: x.importance >= 0.0)
    ensures stored.None? ==> importanceData == SortBy(CoefficientImportance(names, coefs), Chart.ImportanceDescending)
  {
    match stored {
      case Some(data) =>
        importanceData := data;
      case None =>
        importanceData := CoefficientImportance(names, coefs);
        importanceData := SortBy(importanceData, Chart.ImportanceDescending);
        PermutationMembers(importanceData, CoefficientImportance(names, coefs));
    }
  }

  /** Each feature paired with a coefficient appears with that coefficient's absolute value. */
  lemma CoefficientImportanceAt(names: seq<string>, coefs: seq<real>, i: nat)
    requires i < |names| && i < |coefs|
    ensures Chart.FeatureItem(names[i], Abs(coefs[i])) in CoefficientImportance(names, coefs)
  {
    assert CoefficientImportance(names, coefs)[i] == Chart.FeatureItem(names[i], Abs(coefs[i]));
  }

  // ---------------------------------------------------------------------
  // /latest

  /** A row of the merged housing data; `None` is a missing value. */
  datatype DataRow = DataRow(
    year: int,
    avgMedianPrice: Option<real>,
    avgPropertyTax: Option<real>,
    others: map<string, Option<real>>)

  function RowYear(r: DataRow): real { r.year as real }

  /** `df.sort_values('year')`. */
  function SortByYear(rows: seq<DataRow>): (df: seq<DataRow>)
    ensures multiset(df) == multiset(rows) && |df| == |rows|
    ensures forall i, j | 0 <= i < j < |df| :: df[i].year <= df[j].year
  {
    var r := SortBy(rows, RowYear);
    assert forall i, j | 0 <= i < j < |r| :: RowYear(r[i]) <= RowYear(r[j]);
    r
  }

  /** `df['avg_median_price'].shift(1)` at row i. */
  function Lag(df: seq<DataRow>, i: nat): Option<real>
    requires i < |df|
  {
    if i == 0 then None else df[i - 1].avgMedianPrice
  }

  /** The last of the rows before n that has a lag. */
  function LastLagged(df: seq<DataRow>, n: nat): (r: Option<nat>)
    requires n <= |df|
    ensures r.Some? ==>
      r.value < n && Lag(df, r.value).Some? && forall j | r.value < j < n :: Lag(df, j).None?
    ensures r.None? ==> forall j | 0 <= j < n :: Lag(df, j).None?
  {
    if n == 0 then None
    else if Lag(df, n - 1).Some? then Some(n - 1)
    else LastLagged(df, n - 1)
  }

  /** The last of the rows before n whose property tax is present. */
  function LastTaxed(df: seq<DataRow>, n: nat): (r: Option<nat>)
    requires n <= |df|
    ensures r.Some? ==>
      r.value < n && df[r.value].avgPropertyTax.Some? && forall j | r.value < j < n :: df[j].avgPropertyTax.None?
    ensures r.None? ==> forall j | 0 <= j < n :: df[j].avgPropertyTax.None?
  {
    if n == 0 then None
    else if df[n - 1].avgPropertyTax.Some? then Some(n - 1)
    else LastTaxed(df, n - 1)
  }

  const DefaultPropertyTax: real := 713392.78

  /** The property tax reported for row k: its own, else the last one present, else the default. */
  function FilledTax(df: seq<DataRow>, k: nat): real
    requires k < |df|
  {
    match df[k].avgPropertyTax
    case Some(t) => t
    case None =>
      match LastTaxed(df, |df|)
      case Some(j) => df[j].avgPropertyTax.value
      case None => DefaultPropertyTax
  }

  /** The `/latest` record: the row, its tax filled in, and its `CA_lag1`. */
  datatype LatestRecord = LatestRecord(row: DataRow, caLag1: real)

  const NoData: Failure := Failure(404, "No data available")

  /** `latest`, on the rows of the merged housing data. */
  method Latest(rows: seq<DataRow>) returns (reply: Result<LatestRecord, Failure>)
    ensures var df := SortByYear(rows);
      reply.Err? <==> LastLagged(df, |df|).None?
    ensures reply.Err? ==> reply.error == NoData
    ensures reply.Ok? ==>
      var df := SortByYear(rows);
      var k := LastLagged(df, |df|).value;
      reply.value == LatestRecord(df[k].(avgPropertyTax := Some(FilledTax(df, k))), Lag(df, k).value)
  {
    var df := SortByYear(rows);
    var lag := ShiftPrices(df);
    var latestIndex := LastWithLag(df, lag);
    if latestIndex.None? {
      return Err(NoData);
    }
    var k := latestIndex.value;
    var result := df[k];
    if result.avgPropertyTax.None? {
      var validTax := LastValidTax(df);
      if validTax.Some? {
        result := result.(avgPropertyTax := df[validTax.value].avgPropertyTax);
      } else {
        result := result.(avgPropertyTax := Some(DefaultPropertyTax));
      }
    }
    return Ok(LatestRecord(result, lag[k].value));
  }

  /** `df['avg_median_price'].shift(1)`: the `CA_lag1` column. */
  method ShiftPrices(df: seq<DataRow>) returns (lag: seq<Option<real>>)
    ensures |lag| == |df| && forall j | 0 <= j < |df| :: lag[j] == Lag(df, j)
  {
    lag := [];
    var i := 0;
    while i < |df|
      invariant i <= |df| && |lag| == i
      invariant forall j | 0 <= j < i :: lag[j] == Lag(df, j)
    {
      lag := lag + [if i == 0 then None else df[i - 1].avgMedianPrice];
      i := i + 1;
    }
  }

  /** `df[df['CA_lag1'].notna()].tail(1)`: the index of the last row with a lag. */
  method LastWithLag(df: seq<DataRow>, lag: seq<Option<real>>) returns (latestIndex: Option<nat>)
    requires |lag| == |df| && forall j | 0 <= j < |df| :: lag[j] == Lag(df, j)
    ensures latestIndex == LastLagged(df, |df|)
  {
    latestIndex := None;
    var i := 0;
    while i < |df|
      invariant i <= |df|
      invariant latestIndex == LastLagged(df, i)
    {
      if lag[i].Some? {
        latestIndex := Some(i);
      }
      i := i + 1;
    }
  }

  /** `df['avg_property_tax'].dropna()` then its last element: the index of the last row with a tax. */
  method LastValidTax(df: seq<DataRow>) returns (validTax: Option<nat>)
    ensures validTax == LastTaxed(df, |df|)
  {
    validTax := None;
    var i := 0;
    while i < |df|
      invariant i <= |df|
      invariant validTax == LastTaxed(df, i)
    {
      if df[i].avgPropertyTax.Some? {
        validTax := Some(i);
      }
      i := i + 1;
    }
  }

  /**
   * There is a latest record iff some row other than the last one, in year
   * order, has a price; the record is the row after the last such one, and
   * its lag is that price.
   */
  lemma LatestRowChoice(df: seq<DataRow>)
    ensures LastLagged(df, |df|).None? <==> forall j | 0 <= j < |df| - 1 :: df[j].avgMedianPrice.None?
    ensures LastLagged(df, |df|).Some? ==>
      var k := LastLagged(df, |df|).value;
      k >= 1 && Lag(df, k) == df[k - 1].avgMedianPrice
      && forall j | k <= j < |df| - 1 :: df[j].avgMedianPrice.None?
  {
    if LastLagged(df, |df|).None? {
      forall j | 0 <= j < |df| - 1 ensures df[j].avgMedianPrice.None? {
        assert Lag(df, j + 1).None?;
      }
    } else {
      var k := LastLagged(df, |df|).value;
      forall j | k <= j < |df| - 1 ensures df[j].avgMedianPrice.None? {
        assert Lag(df, j + 1).None?;
      }
    }
  }

  /**
   * The reported tax is the row's own when present; otherwise the tax of
   * the latest year that has one; the default only when no row has one.
   */
  lemma FilledTaxChoice(df: seq<DataRow>, k: nat)
    requires k < |df|
    ensures df[k].avgPropertyTax.Some? ==> FilledTax(df, k) == df[k].avgPropertyTax.value
    ensures df[k].avgPropertyTax.None? && (exists j | 0 <= j < |df| :: df[j].avgPropertyTax.Some?) ==>
      exists j | 0 <= j < |df| :: df[j].avgPropertyTax == Some(FilledTax(df, k))
        && forall l | j < l < |df| :: df[l].avgPropertyTax.None?
    ensures FilledTax(df, k) == DefaultPropertyTax <== forall j | 0 <= j < |df| :: df[j].avgPropertyTax.None?
  {
  }

  // ---------------------------------------------------------------------
  // /stats

  datatype Stats = Stats(avgPrice: Option<real>, totalRecords: nat, latestYear: int, earliestYear: int)

  /** The prices present, in row order (`dropna`). */
  function PresentPrices(rows: seq<DataRow>): (ps: seq<real>)
    ensures forall p :: p in ps <==> exists i | 0 <= i < |rows| :: rows[i].avgMedianPrice == Some(p)
  {
    if rows == [] then []
    else
      var rest := PresentPrices(rows[1..]);
      assert forall i | 1 <= i < |rows| :: rows[i] == rows[1..][i - 1];
      assert forall i | 0 <= i < |rows| - 1 :: rows[1..][i] == rows[i + 1];
      match rows[0].avgMedianPrice
      case Some(p) => [p] + rest
      case None => rest
  }
  /** Two tables put together: their present prices put together, in row order, with repeats kept. */
  lemma {:induction false} PresentPricesAppend(a: seq<DataRow>, b: seq<DataRow>)
    ensures PresentPrices(a + b) == PresentPrices(a) + PresentPrices(b)
  {
    if a == [] {
      assert a + b == b;
    } else {
      assert (a + b)[1..] == a[1..] + b;
      assert (a + b)[0] == a[0];
      PresentPricesAppend(a[1..], b);
    }
  }

  /** When every row holds a price, each row's price is counted once, in row order. */
  lemma {:induction false} PresentPricesAllPresent(rows: seq<DataRow>)
    requires forall i | 0 <= i < |rows| :: rows[i].avgMedianPrice.Some?
    ensures |PresentPrices(rows)| == |rows|
    ensures forall i | 0 <= i < |rows| :: PresentPrices(rows)[i] == rows[i].avgMedianPrice.value
  {
    if rows != [] {
      var rest := rows[1..];
      assert forall i | 0 <= i < |rest| :: rest[i] == rows[i + 1];
      PresentPricesAllPresent(rest);
      var ps := PresentPrices(rows);
      assert ps == [rows[0].avgMedianPrice.value] + PresentPrices(rest);
      assert forall i | 1 <= i < |rows| :: ps[i] == PresentPrices(rest)[i - 1];
    }
  }


  function RowYears(rows: seq<DataRow>): (ys: seq<int>)
    ensures |ys| == |rows| && forall i | 0 <= i < |rows| :: ys[i] == rows[i].year
  {
    seq(|rows|, i requires 0 <= i < |rows| => rows[i].year)
  }

  /** `get_stats`: the mean price over present values, the row count, the year range. */
  function GetStats(rows: seq<DataRow>): (r: Result<Stats, Failure>)
    ensures r.Err? <==> rows == []
    ensures r.Ok? ==> r.value.totalRecords == |rows|
    ensures r.Ok? ==> forall i | 0 <= i < |rows| :: r.value.earliestYear <= rows[i].year <= r.value.latestYear
    ensures r.Ok? ==> exists i | 0 <= i < |rows| :: rows[i].year == r.value.earliestYear
    ensures r.Ok? ==> exists i | 0 <= i < |rows| :: rows[i].year == r.value.latestYear
    ensures r.Ok? ==> (r.value.avgPrice.None? <==> PresentPrices(rows) == [])
    ensures r.Ok? && PresentPrices(rows) != [] ==>
      r.value.avgPrice == Some(Sum(PresentPrices(rows)) / |PresentPrices(rows)| as real)
    ensures r.Ok? && r.value.avgPrice.Some? ==>
      MinReal(PresentPrices(rows)) <= r.value.avgPrice.value <= MaxReal(PresentPrices(rows))
  {
    if rows == [] then
      Err(Failure(500, "cannot convert float NaN to integer"))
    else
      var ys := RowYears(rows);
      assert forall i | 0 <= i < |rows| :: ys[i] in ys;
      var ps := PresentPrices(rows);
      var avg := if ps == [] then None else (MeanBetweenMinAndMax(ps); Some(Mean(ps)));
      Ok(Stats(avg, |rows|, MaxInt(ys), MinInt(ys)))
  }

  // ---------------------------------------------------------------------
  // /predict

  /**
   * `[data[feature] for feature in feature_names]`: the request's values in
   * the model's order; a missing name raises `KeyError` for the first one.
   * `None` is JSON `null`.
   */
  function FeatureVector(data: map<string, Option<real>>, names: seq<string>): (r: Result<seq<Option<real>>, Failure>)
    ensures r.Ok? <==> forall n | n in names :: n in data
    ensures r.Ok? ==> |r.value| == |names| && forall i | 0 <= i < |names| :: r.value[i] == data[names[i]]
    ensures r.Err? ==> exists i | 0 <= i < |names| ::
      names[i] !in data && r.error == Failure(500, names[i]) && forall j | 0 <= j < i :: names[j] in data
  {
    if names == [] then Ok([])
    else if names[0] !in data then Err(Failure(500, names[0]))
    else
      assert forall n | n in names[1..] :: n in names;
      match FeatureVector(data, names[1..])
      case Ok(rest) =>
        assert forall n | n in names :: n == names[0] || n in names[1..];
        Ok([data[names[0]]] + rest)
      case Err(e) =>
        var i :| 0 <= i < |names[1..]| && names[1..][i] !in data && e == Failure(500, names[1..][i])
          && forall j | 0 <= j < i :: names[1..][j] in data;
        assert names[i + 1] !in data;
        Err(e)
  }

  /** The JSON body the form sends: the five fields, NaN as `null`. */
  function RequestJson(inputs: Form.Inputs): (data: map<string, Option<real>>)
    ensures data.Keys == set n | n in Form.FieldNames
  {
    map[
      "population" := inputs.population,
      "total_debt" := inputs.totalDebt,
      "total_housing_units" := inputs.totalHousingUnits,
      "avg_property_tax" := inputs.avgPropertyTax,
      "CA_lag1" := inputs.caLag1]
  }

  /**
   * A request from the form yields a vector iff the model asks only for
   * the form's fields, and then each entry is the field the model names.
   */
  lemma FormRequestVector(inputs: Form.Inputs, names: seq<string>)
    ensures FeatureVector(RequestJson(inputs), names).Ok? <==> forall n | n in names :: n in Form.FieldNames
    ensures FeatureVector(RequestJson(inputs), names).Ok? ==>
      forall i | 0 <= i < |names| ::
        names[i] in Form.FieldNames
        && FeatureVector(RequestJson(inputs), names).value[i] == Form.Component(inputs, names[i])
  {
    RequestJsonFields(inputs);
  }

  /** The body holds exactly the five fields, each the request's component. */
  lemma RequestJsonFields(inputs: Form.Inputs)
    ensures forall n :: n in RequestJson(inputs) <==> n in Form.FieldNames
    ensures forall n | n in Form.FieldNames :: RequestJson(inputs)[n] == Form.Component(inputs, n)
  {
    var data := RequestJson(inputs);
    forall n ensures n in data <==> n in Form.FieldNames {
      assert n in data <==> n in data.Keys;
    }
  }
}
