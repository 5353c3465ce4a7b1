# California housing price dashboard: a Dafny model of its data handling

The dashboard has two parts:

- a React front end, which offers a prediction form and chart cards;
- a Flask service, which answers from CSV tables and a fitted regression model.

This project models the parts of both that compute something. Each module below names the source file it models.

- `Shorthand` (`shorthand.dfy`): the numeric shorthand codec of the prediction form.
  - `formatShorthand` shows a number as "39.43M", "713K" or "17.80".
  - `parseShorthand` reads text such as " 39m " back into a number.
  - JavaScript values are modelled as a number, NaN or a string.
- `Form` (`prediction_form.dfy`): the prediction form component. It is a class whose fields are the component's state (`formData`, `loading`, `modalData`, `isModalOpen`). Its methods are:
  - `handleChange`;
  - the submission, which builds the request from the fields;
  - `loadLatestData`, including its fixed fallback values.
- `Chart` (`chart_card.dfy`): the chart card.
  - The "Price Trends" chart sorts a copy of the yearly series and projects it into an 800 × 250 box with padding 40. It draws the line and area paths, and summarises the period, the average and the price range.
  - The "Regional Analysis" list filters by positive median price and shows the first five.
  - The "Feature Importance" list shows the first five features under their display names.
- `Backend` (`backend.dfy`): the data shaping of the service.
  - `regional_analysis`: the loop over the last row, then the sort by price.
  - The coefficient fallback of `feature_importance`.
  - `/latest`, with its previous-year lag and its property-tax fallback of 713392.78.
  - The `/stats` aggregates.
  - The feature vector of `/predict`.
- `Decimal` (`decimal.dfy`): the JavaScript builtins the code relies on, as section 21.1.3.3 (`Number.prototype.toFixed`, for magnitudes below 1e21) and section 19.2.4 (`parseFloat`, less "Infinity") of ECMA-262 define them on decimal text. It also models `Number()` on decimal literals, `trim` and `toUpperCase`.
- `Seqs` (`seqs.dfy`): a stable insertion sort by a real key, proved sorted and a permutation. Also minimum, maximum, sum, mean and `slice(0, n)`.
- `Wrappers` (`wrappers.dfy`): `Option` and `Result`.

Numbers are exact reals:

- `toFixed` rounds |x| half up and puts "-" in front for negative x, so it rounds half away from zero.
- `parseFloat` reads the longest prefix that is a decimal literal, exponent part included: "12e5px" reads as 1200000.
- `Number()` reads a whole trimmed decimal literal, exponent part included, and "" as 0.

Two consequences of the code are worth knowing:

- `formatShorthand` compares `n` itself with 1e9, 1e6 and 1e3, so a negative number is shown with two decimals and no suffix.
- The K range keeps no decimals, so 1499 is shown as "1K" and reads back as 1000. The proved error bound is half a unit in the last shown place: 500 in the K range, 5000 in the M range and 5,000,000 in the B range.

## Model

| member | source | states |
|---|---|---|
| Shorthand.FormatShorthand | src/assets/components/PredictionForm.js:20-29 | the result is the value itself or text, and a truthy value that `parseFloat` reads is shown as non-empty text |
| Shorthand.FormatShorthandNonNumeric | src/assets/components/PredictionForm.js:20-23 | a falsy value is shown as ""; a value `parseFloat` cannot read is shown unchanged |
| Shorthand.FormatShorthandSuffix | src/assets/components/PredictionForm.js:25-28 | for n ≠ 0 the text ends in B iff n ≥ 1e9, in M iff 1e6 ≤ n < 1e9, in K iff 1e3 ≤ n < 1e6, and in a digit iff n < 1e3 |
| Shorthand.NegativeHasNoSuffix | src/assets/components/PredictionForm.js:25-28 | a negative number is shown as its `toFixed(2)` text: a leading "-", a final digit, no suffix |
| Shorthand.ParseShorthand | src/assets/components/PredictionForm.js:31-46 | the result is a number, NaN or "", never other text |
| Shorthand.ParseShorthandEmpty | src/assets/components/PredictionForm.js:32 | falsy input, the empty text, is read as "" |
| Shorthand.ParseShorthandNoNumber | src/assets/components/PredictionForm.js:45 | text whose trimmed form starts with neither a digit, a point nor a sign is read as "" |
| Shorthand.ParseShorthandDigitPrefix | src/assets/components/PredictionForm.js:35-45 | text that trims to digits followed by anything but a digit, a point, an exponent part or a lone suffix letter is read as the digits' value, and as "" when that value is 0 ("00Q") |
| Shorthand.ParseShorthandExponent | src/assets/components/PredictionForm.js:33-45 | text that trims to digits, an exponent mark in either case, more digits and then no digit is read as the digits times ten to that power, whether `Number` accepts it whole ("1e6") or only `parseFloat` reads its prefix ("1e6k"); the result is "" only for a zero value with a tail |
| Shorthand.ExponentExample | src/assets/components/PredictionForm.js:45 | "1e6k" is read as 1000000 |
| Shorthand.ShorthandText | src/assets/components/PredictionForm.js:37-43 | text matching `^[\d.]+[KMB]$` reads as `parseFloat` of its prefix times 1e3, 1e6 or 1e9 |
| Shorthand.ParseShorthandSuffixed | src/assets/components/PredictionForm.js:31-43 | text that trims to digits and dots plus k, m or b in either case reads as the prefix's value times the multiplier |
| Shorthand.ParseShorthandDigits | src/assets/components/PredictionForm.js:31-43 | a run of digits plus a suffix letter, with white space around it, reads as the digits' value times 1e3, 1e6 or 1e9 |
| Shorthand.ParseShorthandPlain | src/assets/components/PredictionForm.js:33-35 | text that trims to one signed decimal literal, with an exponent mark in either case or none, reads as that literal's value |
| Shorthand.ParseShorthandIgnoresCase | src/assets/components/PredictionForm.js:33 | two texts with the same upper-case form read alike |
| Shorthand.ShorthandRoundTrip | src/assets/components/PredictionForm.js:20-46 | for n ≠ 0, parsing the display of n gives the displayed rounded quotient times the suffix's multiplier |
| Shorthand.ShownValueError | src/assets/components/PredictionForm.js:25-28 | the value a display stands for is within half a unit in its last displayed place of n: 0.005, 500, 5000 or 5,000,000 |
| Shorthand.KiloRoundingExample | src/assets/components/PredictionForm.js:27 | 1499 is displayed as a value of 1000: the K range keeps no decimals |
| Decimal.ToFixedReadsBack | src/assets/components/PredictionForm.js:25-28 | `parseFloat` and `Number` both read `x.toFixed(d)` back as x rounded to d decimals, half away from zero |
| Decimal.FixedValueError | src/assets/components/PredictionForm.js:25-28 | x rounded to d decimals, half away from zero, lies within half of 10^-d of x |
| Decimal.ParseFloatDigitPrefix | src/assets/components/PredictionForm.js:45 | `parseFloat` of digits followed by anything but a digit, a point or an exponent part is the digits' value |
| Decimal.ParseFloatExponent | src/assets/components/PredictionForm.js:101-105 | `parseFloat` of digits, "e" or "E" and more digits, followed by no digit, is the first digits times ten to the power of the second ("12e5" and "12E5px" are 1200000) |
| Decimal.ToFixedEnds | src/assets/components/PredictionForm.js:25-28 | `toFixed` text is not empty and ends in a digit; it starts with "-" iff x < 0, otherwise with a digit |
| Decimal.TrimUpper | src/assets/components/PredictionForm.js:33 | upper-casing and then trimming is the same as trimming and then upper-casing |
| Decimal.NumberOfNonDigitEnd | src/assets/components/PredictionForm.js:35 | text ending in a character other than a digit or a dot is NaN for `Number`, so `isNaN` holds for "12K" |
| Form.PredictionForm.constructor | src/assets/components/PredictionForm.js:6-18 | the five fields start as "", nothing is loading, and the modal is closed and empty |
| Form.PredictionForm.HandleChange | src/assets/components/PredictionForm.js:79-93 | the named field takes the parsed shorthand when the trimmed text ends in K, M or B in either case, and the text itself otherwise; nothing else changes |
| Form.PredictionForm.HandleSubmit | src/assets/components/PredictionForm.js:95-137 | on a reply, the modal opens with the price and the fields through `parseFloat`, and the callback, when present, gets the same price and inputs; a failed request changes nothing; the fields are untouched |
| Form.PredictionForm.LoadLatestData | src/assets/components/PredictionForm.js:52-77 | the fields take the reply's values, with "" for missing or falsy ones, or the fallback values when the request fails; loading ends false |
| Form.ChangedValue | src/assets/components/PredictionForm.js:79-93 | a stored text is either the typed text or "" |
| Form.ChangedValueKeepsPlainText | src/assets/components/PredictionForm.js:87-91 | text not ending in a suffix letter is stored as typed |
| Form.ChangedValueOfSuffixed | src/assets/components/PredictionForm.js:81-86 | suffixed text is stored as `parseShorthand` of it: a number, NaN or "" |
| Form.ChangedValueScaled | src/assets/components/PredictionForm.js:79-86 | typing digits and dots plus k, m or b stores the prefix's value times the multiplier |
| Form.RetypedDisplay | src/assets/components/PredictionForm.js:20-93 | typing back the shorthand display of a number ≥ 1e3 stores the number the display stands for |
| Form.FieldText | src/assets/components/PredictionForm.js:163-218 | an input shows a truthy number through `formatShorthand` exactly when the field is not the debt field; every other value, and every value in the debt field, is shown as it is |
| Form.LoadedData | src/assets/components/PredictionForm.js:58-64 | the form has exactly the five fields; a field is truthy iff the reply's value is, in which case it holds that value, and otherwise it holds "" |
| Form.FieldTextRetyped | src/assets/components/PredictionForm.js:163-218 | every field but the debt field shows a number ≥ 1e3 in shorthand, and retyping it stores the shown value; the debt field shows the number as it is |
| Form.RequestIgnoresOtherFields | src/assets/components/PredictionForm.js:100-106 | the request depends only on the five named fields |
| Form.RequestAfterChange | src/assets/components/PredictionForm.js:100-106 | changing one field changes only its own request component, which becomes `parseFloat` of the new value |
| Form.FallbackRequest | src/assets/components/PredictionForm.js:66-73 | with the fallback values, the request carries exactly those five numbers |
| Form.EmptyReplyBlanksForm | src/assets/components/PredictionForm.js:58-64 | a reply with none of the fields blanks all five, and every request component is NaN |
| Seqs.SortBy | src/assets/components/ChartCard.js:91 | the result is ascending by key, is a permutation of the input and has the same length |
| Seqs.SortByIsStable | app.py:106 | elements with equal keys keep their relative order |
| Seqs.MeanBetweenMinAndMax | src/assets/components/ChartCard.js:157-158 | the mean of a non-empty series lies between its minimum and its maximum |
| Chart.SortByYear | src/assets/components/ChartCard.js:91 | the copy is a permutation of the data, ascending by year |
| Chart.PointX | src/assets/components/ChartCard.js:100 | every index of the series is drawn between x = 40 and x = 760 |
| Chart.PointY | src/assets/components/ChartCard.js:101 | every price between the minimum and the maximum is drawn between y = 40 and y = 210 |
| Chart.Project | src/assets/components/ChartCard.js:99-103 | one point per sample, in order, each carrying its sample |
| Chart.ProjectEnds | src/assets/components/ChartCard.js:100 | the first point has x = 40 and the last has x = 760 |
| Chart.ProjectXIncreasing | src/assets/components/ChartCard.js:100 | x strictly increases along the sorted samples |
| Chart.ProjectYBounds | src/assets/components/ChartCard.js:92-101 | every y lies in [40, 210]; y = 210 iff the price is the minimum, and y = 40 iff it is the maximum |
| Chart.ProjectYOrder | src/assets/components/ChartCard.js:101 | one sample is dearer than another iff it is drawn higher, at a smaller y |
| Chart.LinePath | src/assets/components/ChartCard.js:105 | one command per point; command i goes to point i, and only the first command is a move |
| Chart.AreaPath | src/assets/components/ChartCard.js:106 | the line path, then two lines along the baseline y = 210, then a close |
| Chart.AreaClosesAlongBaseline | src/assets/components/ChartCard.js:106 | the area is the line, then the corners (760, 210) and (40, 210), then closed; it starts on the left edge |
| Chart.PathsInPlotArea | src/assets/components/ChartCard.js:89-106 | no command of either path leaves the plot area of the 800 × 250 box |
| Chart.Summarize | src/assets/components/ChartCard.js:85-158 | the first year is at most the last; the average is the sum of the prices over their count, and lies between the lowest and the highest price; the record count is the number of samples |
| Chart.SummaryMatchesChart | src/assets/components/ChartCard.js:85-94 | the period runs from the first to the last plotted year, and the price range equals the chart's minimum and maximum |
| Chart.PriceTrends | src/assets/components/ChartCard.js:75-106 | no data iff the series is empty; non-finite geometry iff it has one sample or one price; otherwise one point per sample under the summary |
| Chart.FlatIffExtremesMeet | src/assets/components/ChartCard.js:92-94 | all prices are equal iff the minimum equals the maximum, which is a zero price range |
| Chart.PriceLabel | src/assets/components/ChartCard.js:146 | the label starts with "$" and ends with "K" |
| Chart.PriceLabelValue | src/assets/components/ChartCard.js:158 | the label's digits read as the price in thousands rounded half up, at most 500 off the price |
| Chart.ShownRegionIffPositive | src/assets/components/ChartCard.js:47-51 | a row is kept iff its price coerces to a positive number; the truthiness test adds nothing |
| Chart.RegionalFilter | src/assets/components/ChartCard.js:47-51 | an item is kept iff it is in the data and passes the test; never longer than the data |
| Chart.RegionalFilterAppend | src/assets/components/ChartCard.js:47-51 | the filter distributes over concatenation, so it keeps the order |
| Chart.TopRegions | src/assets/components/ChartCard.js:175 | the first min(n, 5) of the n kept rows, in their order |
| Chart.DisplayNamesDistinct | src/assets/components/ChartCard.js:8-14 | the five model inputs get five different display names, each different from its key |
| Chart.DisplayName | src/assets/components/ChartCard.js:166 | a known feature is shown under its mapped name, which differs from the key; any other feature under its own name |
| Chart.FeatureRows | src/assets/components/ChartCard.js:164-168 | the first min(n, 5) items, each as its display row |
| Chart.FeatureRowValue | src/assets/components/ChartCard.js:167-168 | the value text reads as the importance rounded to 4 decimals, at most 0.00005 off; the bar width is never negative |
| Chart.ListedAreMostImportant | src/assets/components/ChartCard.js:164 | for data ordered by importance, no unlisted feature is more important than a listed one |
| Backend.StripCurrency | app.py:93-94 | the result has no "$" or "," and is never longer than the input |
| Backend.StripCurrencyOfClean | app.py:94 | text without "$" or "," is left unchanged |
| Backend.StripCurrencyAppend | app.py:94 | stripping distributes over concatenation, so every other character is kept in order |
| Backend.CellPriceOfDecorated | app.py:93-96 | a price cell such as "$1,250,000", digits once "$" and "," are removed, holds the value of those digits |
| Backend.Collected | app.py:89-103 | over the first n columns, the first being the date, at most n - 1 regions are listed, each with a positive price |
| Backend.CollectedMembers | app.py:89-103 | a region is listed iff it labels a column after the first whose cell holds a positive price; every listed price is positive |
| Backend.CollectRegions | app.py:87-103 | the loop over the columns after the first yields the regions of the last row |
| Backend.RegionalAnalysis | app.py:82-109 | an error with status 500 iff the read failed or there is no row; otherwise a permutation of the collected regions in descending price order |
| Backend.CardKeepsServiceRegions | app.py:97 | the card's filter keeps every region the service lists |
| Backend.FeatureImportance | app.py:65-79 | the stored importances when present; otherwise the coefficients' absolute values, non-negative, as a permutation sorted by descending importance; it is the stable sort of the zipped list, so equal importances keep their zip order (`Seqs.SortByIsStable`) |
| Backend.CoefficientImportance | app.py:74-77 | one item per feature paired with a coefficient, as many as the shorter list, each importance non-negative |
| Backend.CoefficientImportanceAt | app.py:74-77 | each feature paired with a coefficient is listed with that coefficient's absolute value |
| Backend.SortByYear | app.py:122 | a permutation of the rows, ascending by year |
| Backend.LastLagged | app.py:126 | the last row before n whose lag is present; none iff no row before n has a lag |
| Backend.LastTaxed | app.py:136-138 | the last row before n whose property tax is present; none iff no row before n has one |
| Backend.ShiftPrices | app.py:123 | entry j is the previous row's price, and the first entry is missing |
| Backend.LastWithLag | app.py:126 | the index of the last row whose lag is present |
| Backend.LastValidTax | app.py:136-138 | the index of the last row whose property tax is present |
| Backend.Latest | app.py:118-142 | 404 iff no row has a lag; otherwise the last lagged row, its tax filled, with its lag |
| Backend.LatestRowChoice | app.py:122-129 | a record exists iff some row other than the last, in year order, has a price; the record is the row after the last such row |
| Backend.FilledTaxChoice | app.py:133-140 | the row's own tax; else the latest tax present in any row; 713392.78 only when no row has one |
| Backend.PresentPrices | app.py:58 | a value is among the prices iff some row holds it |
| Backend.PresentPricesAppend | app.py:58 | the prices of two tables put together are their prices put together, in row order and with repeats kept |
| Backend.PresentPricesAllPresent | app.py:58 | when every row holds a price, there is one price per row and the i-th is row i's |
| Backend.GetStats | app.py:55-62 | an error iff there are no rows; the year bounds bound every row and are attained; no average iff no price is present, otherwise it is the sum of the present prices over their count and lies between the lowest and highest of them |
| Backend.FeatureVector | app.py:41 | a vector iff every name is in the body, the values then in the model's order; otherwise the error names the first missing name |
| Backend.RequestJson | src/assets/components/PredictionForm.js:112 | the JSON body has exactly the five field names as keys |
| Backend.RequestJsonFields | src/assets/components/PredictionForm.js:100-112 | each key of the body carries its request component |
| Backend.FormRequestVector | app.py:40-41 | a request from the form yields a vector iff the model asks only for the form's fields, and each entry is the field the model names |

## Left out

- The network is left out. The fetches, HTTP, JSON transport and Flask routing are not modelled. A reply arrives as a parameter of the handler or method that receives it. The routes `home` and `/features` are left out because they return fixed data and the model's feature names. `/history` is left out too: it replaces missing values with 0 and returns the rows, with no other computation.
- File I/O is left out. Reading CSV and pickle files is not modelled. A table that was read arrives as a parameter, and a failed read arrives as an error value.
- The regression model is left out. The model's prediction and the two scalers used by `/predict` are not modelled. The model covers the request up to the feature vector.
- Presentation is left out. That covers the rendering, the tooltip, the `showAdvanced` toggle, the modal component and the console logging. The `alert` on a failed submission is also left out; it leaves the state unchanged, as `HandleSubmit` states.
- The clock is left out. Time stamps are parameters of `HandleSubmit`.
- Floating point is left out. Numbers are exact reals, and `toFixed` is exact round-half-up on them, so binary rounding effects are not captured. SVG number printing is also left out: paths are command lists.
- Decimal.NumberOf: reads only decimal literals, with a sign, digits, at most one dot and an optional exponent part, plus "" as 0. Hexadecimal, binary and octal literals, "Infinity" and numeric separators are not modelled. Backend.PyFloat also leaves out underscores, "inf" and "nan". One visible consequence: "0xb" typed in a field is hexadecimal for `Number`, so the code stores `parseFloat("0XB")`, which is 0, whereas the model stores "".
- Decimal.ParseFloat: does not read "Infinity", for which `parseFloat` gives Infinity; the model gives NaN. A literal too large for a double ("1e400") is an exact real in the model, where JavaScript gives Infinity.
- Decimal.ToFixed: covers only |x| < 1e21. For larger magnitudes `toFixed` returns the exponent form of `String(x)` ("1e+21"), which is not modelled. In `formatShorthand` that branch is reached for n <= -1e21 (through `n.toFixed(2)`) and for n >= 1e30 (through `(n / 1e9).toFixed(2)`).
- Decimal.UpperChar: upper-cases only ASCII letters. Unicode case mapping is not modelled.
- Seqs.SortBy: is stable, like JavaScript's `Array.prototype.sort` (stable since ES2019) and Python's `list.sort`, so the chart's year sort and the regional ranking (`list.sort(reverse=True)`) are modelled exactly. pandas `sort_values` uses quicksort by default and does not promise stability. `Backend.SortByYear` (the `/latest` sort by year) therefore fixes rows with equal years in their original order, which is one of the orders pandas may produce; the choice matters only when two rows share a year.
- Chart.Project: requires at least two samples and a non-zero price range. The code has no guard. For one sample or one price it divides by zero, and the coordinates are NaN or infinite. `Chart.PriceTrends` shows that case as `NonFinite` rather than modelling NaN geometry.
- Chart.DisplayName: keys inherited from `Object.prototype` (such as "constructor") are not modelled as present in the name map.
- Chart.IsShownRegion: the `median_price` value is modelled as a number, NaN or a string. Other JSON values (booleans, null, arrays) are not modelled.
- Backend.RegionalAnalysis: pandas and Python error messages are plain strings in the model. The message for an empty table is fixed text.
- Backend.FeatureVector: a `KeyError` is modelled as a 500 reply whose message is the missing key. Flask's own error page is not modelled. A `null` value passes through as `None`; what the scaler then does with it is not modelled.
- Backend.GetStats: an all-missing price column gives no average, where pandas gives NaN. An empty table is an error with status 500, where Python raises while converting NaN to an integer.
- Chart.Summarize: the average and range labels round through `toFixed(0)` in thousands. `Chart.PriceLabelValue` states that rounding, while `Summarize` keeps the exact values.
