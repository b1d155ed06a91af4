# Customer analytics dashboard — a Dafny model of its data logic

The dashboard page of this customer-retention app loads three parsed CSV
datasets (loyalty scores, the outreach list, churn predictions) and derives
everything it shows from them:

- three KPI averages (mean loyalty score, mean 12-month CLV, mean churn risk);
- a ten-bin histogram of the predicted churn risk over [0, 1];
- breakdowns of the loyalty records by `loyalty_tier` and of the outreach
  records by `segment`;
- a credit-risk / CLV scatter projection of the outreach records;
- a customer lookup that finds, by trimmed `customer_id`, the first matching
  record in each dataset and forms a composite health score from them.

The model keeps the page's own shape. The page state is a class,
`DashboardPage.Dashboard`, whose fields are the page's state hooks. Its
methods are the events that change that state: a dataset arriving (followed by
the effects that depend on it), the search box being edited, and the Search
button. The pure computations (the `reduce` behind each KPI, the `map` behind
the scatter data) are functions. The code that mutates as it goes is written
as methods, with a loop where the code iterates, each proved against a
specification function:

- the histogram increments cells of an array in a loop over the records;
- the tier and segment counting fills a map in a loop and remembers key
  creation order;
- the health score pushes up to three scores onto a list, one guarded push
  per dataset.

Numbers are JavaScript numbers: `JsNumber.Num` is NaN, one of the two
infinities, or a finite value. Finite values are exact `real`s, and the
arithmetic the page uses is written out with JavaScript's NaN and infinity
rules. `parseFloat` is a concrete function over the ECMAScript decimal literal
grammar: leading white space, an optional sign, `Infinity`, digits with an
optional fraction and exponent, with the longest valid prefix read. A record
is a `map<string, string>`: a column the row lacks is absent, and reading it
gives `undefined`, which `parseFloat` reads as the text `"undefined"`, i.e. NaN.

The page's code does not normalise scores against population ranges and
does not replace every unparsable cell by 0; the model follows the code:

- A non-empty cell that does not parse is not replaced by 0 in the KPI
  averages. `|| 0` only replaces missing and empty cells, so one such cell
  makes the whole average NaN (`Kpi.NaNPoisonsAverage`).
- The health score is 20 times the plain mean of the raw loyalty score, the
  raw lead score and `1 - churn risk`. Only the scores actually present count
  (`Lookup.Health`). The loyalty and lead scores are not min-max normalised
  against the population range, and the health is that raw mean times 20,
  not a normalised mean times 100.
- The breakdowns come out in `Object.entries` order. Labels that are array
  indices (`"0"`, `"7"`, …) come first in ascending numeric order. The other
  labels follow in order of first appearance (`Distribution.TallyOrder`). The
  order is guaranteed to be first appearance when no label is an array index
  (`Distribution.TallyFirstAppearance`); otherwise the array-index labels are
  moved to the front in ascending order.

## Model

| member | source | states |
|---|---|---|
| JsString.Trim | src/pages/Dashboard.jsx:129 | defines `trim` as dropping leading, then trailing white space; its properties are `TrimIsSlice`, `TrimEmptyIff` and `TrimIdempotent` |
| JsString.TrimStartSuffix | src/pages/Dashboard.jsx:129 | removing leading white space leaves a suffix of the text, and what was removed is all white space |
| JsString.TrimEndPrefix | src/pages/Dashboard.jsx:129 | removing trailing white space leaves a prefix of the text, and what was removed is all white space |
| JsString.TrimIsSlice | src/pages/Dashboard.jsx:129 | `trim` gives the slice of the id left after removing its white-space prefix and suffix, and the result neither starts nor ends with white space |
| JsString.TrimEmptyIff | src/pages/Dashboard.jsx:129-130 | the trimmed id is empty exactly when the search text is all white space |
| JsString.TrimIdempotent | src/pages/Dashboard.jsx:129 | trimming an already trimmed id changes nothing |
| JsNumber.Add | src/pages/Dashboard.jsx:63 | defines JavaScript `+`: NaN absorbs, opposite infinities give NaN, an infinity absorbs a finite value, and finite values add exactly; its properties are `NumberSums.SumLeftExact` and `NumberSums.SumLeftNaN` |
| JsNumber.Sub | src/pages/Dashboard.jsx:144 | defines JavaScript `1 - x` as adding the negation; its property is `Lookup.RetentionValue` |
| JsNumber.OrZero | src/pages/Dashboard.jsx:122-123 | `x \|\| 0` on a number is never NaN, maps NaN to 0 and keeps every other value |
| JsNumber.InUnitInterval | src/pages/Dashboard.jsx:93 | `!isNaN(v) && v >= 0 && v <= 1` holds exactly for the finite numbers in [0, 1] |
| JsNumber.DivBy | src/pages/Dashboard.jsx:66 | dividing by a record count keeps NaN, each infinity and finiteness as they are; a finite quotient times the count gives back the sum and has the sum's sign |
| JsNumber.Scale | src/pages/Dashboard.jsx:147 | multiplying by 20 keeps NaN, each infinity and finiteness as they are; a finite product divided by 20 gives back the mean and has its sign |
| JsNumber.NatToString | src/pages/Dashboard.jsx:63 | the decimal spelling of a whole number is a non-empty digit string with no leading zero whose value is that number |
| JsNumber.ParseFloat | src/pages/Dashboard.jsx:92 | defines the global `parseFloat`: skip leading white space, read an optional sign, then the longest decimal literal; its properties are `ParseNatToString`, `ParseDigitsThen`, `ParseZero`, `ParseUndefined`, `ParseSkipsWhitespace` and `ParseMinus` |
| JsNumber.ParseNatToString | src/pages/Dashboard.jsx:63 | `parseFloat` reads back the decimal spelling of every whole number |
| JsNumber.ParseDigitsThen | src/pages/Dashboard.jsx:92 | `parseFloat` of a digit string followed by a character that cannot continue a number is that string's value |
| JsNumber.ParseZero | src/pages/Dashboard.jsx:63 | the `0` that `\|\| 0` substitutes for a missing or empty cell reads as zero |
| JsNumber.ParseUndefined | src/pages/Dashboard.jsx:92 | `parseFloat(undefined)`, i.e. of the text "undefined", is NaN |
| JsNumber.ParseEmpty | src/pages/Dashboard.jsx:92 | `parseFloat` of an empty cell is NaN |
| JsNumber.ParseSkipsWhitespace | src/pages/Dashboard.jsx:92 | leading white space does not change what `parseFloat` reads |
| JsNumber.ParseMinus | src/pages/Dashboard.jsx:92 | a leading minus sign negates the literal that follows |
| NumberSums.SumLeft | src/pages/Dashboard.jsx:62-65 | defines the left fold `reduce((acc, x) => acc + x, 0)` in JavaScript arithmetic; its properties are `SumLeftExact` and `SumLeftNaN` |
| NumberSums.SumLeftExact | src/pages/Dashboard.jsx:62-65 | the left fold `reduce((acc, x) => acc + x, 0)` over finite numbers is their exact sum |
| NumberSums.SumLeftNaN | src/pages/Dashboard.jsx:147 | one NaN anywhere in the folded list makes the fold NaN |
| NumberSums.MeanBounds | src/pages/Dashboard.jsx:147 | the mean of values that all lie in [lo, hi] lies in [lo, hi] |
| NumberSums.DivByBounds | src/pages/Dashboard.jsx:66 | a finite sum between n·lo and n·hi, divided by the count n, lies between lo and hi |
| NumberSums.ScaleBounds | src/pages/Dashboard.jsx:147 | a finite mean between lo and hi, times k, lies between k·lo and k·hi |
| Records.HasText | src/pages/Dashboard.jsx:102 | defines the truthiness of a string cell, `r.f` being present and not the empty string, that guards every `r.f \|\| …` and `l && l.f`; its properties are `Records.NumberFieldOrZero`, `Distribution.Label` and `Lookup.ScoreOf` |
| Records.NumberField | src/pages/Dashboard.jsx:92 | defines `parseFloat(r.f)`, with a missing cell read as the text "undefined"; its property is `MissingFieldIsNaN` |
| Records.NumberFieldOrZero | src/pages/Dashboard.jsx:63 | `parseFloat(r.f \|\| 0)` is 0 for a missing or empty cell and `parseFloat(r.f)` otherwise |
| Records.MissingFieldIsNaN | src/pages/Dashboard.jsx:92 | `parseFloat(r.f)` of a missing cell is NaN |
| Kpi.Column | src/pages/Dashboard.jsx:62-65 | defines the values the `reduce` adds: one `parseFloat(r.f \|\| 0)` per record, in record order |
| Kpi.FieldAverage | src/pages/Dashboard.jsx:61-66 | defines a KPI as the fold of the column divided by the record count; its properties are `AverageIsMean`, `MissingCountsAsZero`, `NaNPoisonsAverage` and `AverageBounds` |
| Kpi.AverageIsMean | src/pages/Dashboard.jsx:61-66 | when every cell reads as a finite number, the KPI is the sum over all records divided by the number of records |
| Kpi.MissingCountsAsZero | src/pages/Dashboard.jsx:62-66 | a record with a missing or empty cell adds 0 to the sum and 1 to the denominator |
| Kpi.NaNPoisonsAverage | src/pages/Dashboard.jsx:62-66 | a non-empty cell that does not parse makes the KPI NaN |
| Kpi.AverageBounds | src/pages/Dashboard.jsx:61-66 | the KPI of values that all lie in [lo, hi] lies in [lo, hi] |
| Histogram.BinIndex | src/pages/Dashboard.jsx:94 | `min(floor(10 v), 9)` names a bin below 10 whose lower edge is at most v and whose upper edge is above v, except the last bin, which also takes 1 |
| Histogram.BinIndexUnique | src/pages/Dashboard.jsx:94 | the bins partition [0, 1]: v lies within bin b exactly when b is the bin index of v |
| Histogram.AddValue | src/pages/Dashboard.jsx:91-95 | one record adds 1 to the bin of its risk when the risk is a number in [0, 1] and leaves every other bin unchanged |
| Histogram.Zeros | src/pages/Dashboard.jsx:87-90 | defines the starting histogram: ten bins of count 0 |
| Histogram.Histogram | src/pages/Dashboard.jsx:87-96 | defines the histogram as ten empty bins with every value added in order; its properties are `HistogramCounts`, `HistogramTotal` and `UnitRiskInLastBin` |
| Histogram.HistogramOf | src/pages/Dashboard.jsx:91-96 | defines the histogram of the churn dataset over its parsed risks; its property is `HistogramOfDataset` |
| Histogram.HistogramCounts | src/pages/Dashboard.jsx:87-96 | each bin counts exactly the values that fall within its edges |
| Histogram.HistogramTotal | src/pages/Dashboard.jsx:91-96 | the bins sum to the number of values that are numbers in [0, 1], so at most the number of values |
| Histogram.HistogramOfDataset | src/pages/Dashboard.jsx:86-97 | for the churn dataset: ten bins, each counting the records whose risk lies within it; together they count the records whose risk is in [0, 1], at most all records |
| Histogram.UnitRiskInLastBin | src/pages/Dashboard.jsx:93-94 | a churn risk of exactly 1 is counted, in the last bin |
| Histogram.BuildHistogram | src/pages/Dashboard.jsx:87-97 | the array built by the `forEach` loop over the parsed risks holds exactly the specified histogram of those risks |
| Distribution.Label | src/pages/Dashboard.jsx:102 | defines the label `r.f \|\| 'Unknown'`: the cell's text, or "Unknown" when the cell is missing or empty; a label is never empty |
| Distribution.OwnKeys | src/pages/Dashboard.jsx:106 | defines the own-key order of an object: array-index keys ascending, then the other keys in creation order; its property is `OwnKeysShape` |
| Distribution.ObjectEntries | src/pages/Dashboard.jsx:106-109 | defines `Object.entries(o).map(...)` as one entry per own key, in own-key order, with its count; its properties are `TallyKeys`, `TallyCounts` and `TallyOrder` |
| Distribution.TallyOf | src/pages/Dashboard.jsx:101-119 | defines a breakdown as the entries of the object that counts each label; its properties are `TallyKeys`, `TallyCounts`, `TallySum`, `TallyOrder`, `TallyOrderGrows` and `TallyFirstAppearance` |
| Distribution.FirstAppearanceMembers | src/pages/Dashboard.jsx:103 | the keys created by the counting object are the labels that occur, each once |
| Distribution.OwnKeysShape | src/pages/Dashboard.jsx:106 | `Object.entries` lists every created key once: array-index keys first in ascending order, then the rest in creation order |
| Distribution.TallyStep | src/pages/Dashboard.jsx:103 | one record creates its label at the end with count 1, or increments the count of a label already seen |
| Distribution.TallyKeys | src/pages/Dashboard.jsx:101-109 | the breakdown has one entry per label that occurs, and no label twice |
| Distribution.TallyCounts | src/pages/Dashboard.jsx:101-109 | each entry's count is the number of records carrying its label |
| Distribution.TallySum | src/pages/Dashboard.jsx:101-109 | the counts add up to the number of records |
| Distribution.TallyOrder | src/pages/Dashboard.jsx:106-109 | the entries list the array-index labels ascending, then the other labels in order of first appearance |
| Distribution.TallyOrderGrows | src/pages/Dashboard.jsx:101-106 | adding records only appends non-index labels: the non-index part of the order for a prefix of the records is a prefix of that for all of them |
| Distribution.TallyFirstAppearance | src/pages/Dashboard.jsx:101-119 | when no label is an array index, the entries are in order of first appearance |
| Distribution.CountLabels | src/pages/Dashboard.jsx:101-105 | the `reduce` loop leaves in the counting object, under each label, the number of records carrying it, with the keys created in order of first appearance |
| Distribution.Tally | src/pages/Dashboard.jsx:101-109 | the `reduce` loop that fills the counting object, followed by `Object.entries`, gives the specified breakdown |
| Scatter.Project | src/pages/Dashboard.jsx:121-125 | defines one scatter point: both coordinates through `parseFloat(...) \|\| 0`, and the segment cell; its properties are `ScatterHasNoNaN`, `MissingCellsAtOrigin` and `NumeralCoordinate` |
| Scatter.Coordinate | src/pages/Dashboard.jsx:122-123 | a coordinate is never NaN; it is the parsed cell when that is a number and 0 otherwise |
| Scatter.ScatterData | src/pages/Dashboard.jsx:121-125 | defines the scatter data: one point per outreach record, in record order |
| Scatter.ScatterAppend | src/pages/Dashboard.jsx:121-125 | the projection of concatenated datasets is the concatenation of their projections |
| Scatter.ScatterHasNoNaN | src/pages/Dashboard.jsx:121-125 | no point has a NaN coordinate |
| Scatter.MissingCellsAtOrigin | src/pages/Dashboard.jsx:122-124 | a record lacking both cells is plotted at (0, 0) and keeps its segment |
| Scatter.NumeralCoordinate | src/pages/Dashboard.jsx:122-123 | a cell holding a whole-number numeral is plotted at that value |
| Lookup.HasId | src/pages/Dashboard.jsx:131-133 | defines the `find` test `r.customer_id === id`, which a record without the column never passes; its properties are `Find` and `FindFirst` |
| Lookup.FindIndex | src/pages/Dashboard.jsx:131-133 | no position exactly when no record carries the id; otherwise the first position whose record carries it |
| Lookup.Find | src/pages/Dashboard.jsx:131-133 | `find` gives nothing exactly when no record carries the id; otherwise a record carrying the id with none before it |
| Lookup.FindFirst | src/pages/Dashboard.jsx:131-133 | `find` returns the record at the first position that carries the id |
| Lookup.ScoreOf | src/pages/Dashboard.jsx:140-142 | defines one pushed score: present exactly when the record is found and its cell is non-empty, and then the parsed cell |
| Lookup.RetentionOf | src/pages/Dashboard.jsx:143-144 | defines the churn contribution: `1 - risk` exactly when the churn record is found and its risk cell is non-empty |
| Lookup.Scores | src/pages/Dashboard.jsx:139-144 | at most three scores, and none exactly when no found record has a non-empty score cell |
| Lookup.Health | src/pages/Dashboard.jsx:145-148 | the health is null exactly when there are no scores |
| Lookup.HealthPresentIff | src/pages/Dashboard.jsx:139-148 | a health score exists exactly when some found record carries a non-empty score |
| Lookup.HealthIsScaledMean | src/pages/Dashboard.jsx:145-147 | with finite scores, the health is the sum of the scores divided by their number, times 20 |
| Lookup.HealthRange | src/pages/Dashboard.jsx:145-147 | scores on a 0 to 5 scale give a health between 0 and 100 |
| Lookup.NaNScorePoisonsHealth | src/pages/Dashboard.jsx:145-147 | one score that does not parse makes the health NaN |
| Lookup.RetentionValue | src/pages/Dashboard.jsx:143-144 | a churn risk v contributes exactly `1 - v` |
| Lookup.SingleScoreHealth | src/pages/Dashboard.jsx:145-147 | a single score x gives health 20 x |
| Lookup.BlankSearchKeepsProfile | src/pages/Dashboard.jsx:129-130 | a search for a blank id leaves the profile unchanged |
| Lookup.SearchForgetsPrevious | src/pages/Dashboard.jsx:128-149 | any other search sets a profile that does not depend on the previous one |
| Lookup.SearchIdempotent | src/pages/Dashboard.jsx:128-149 | searching twice with unchanged datasets gives the same profile as searching once |
| Lookup.Search | src/pages/Dashboard.jsx:128-150 | defines the profile after a search; its properties are `BlankSearchKeepsProfile`, `SearchForgetsPrevious`, `SearchIdempotent`, `NotFoundIff`, `FoundProfile` and `LeadOnlyHealth` |
| Lookup.Resolve | src/pages/Dashboard.jsx:134-149 | the profile is "not found" exactly when no record was found; otherwise it carries the three lookups unchanged |
| Lookup.NotFoundIff | src/pages/Dashboard.jsx:131-137 | the profile is "not found" exactly when none of the three datasets has a record with the trimmed id |
| Lookup.FoundProfile | src/pages/Dashboard.jsx:131-149 | otherwise the profile holds each dataset's first record with the id, present exactly when one exists, and the health of their scores |
| Lookup.LeadOnlyHealth | src/pages/Dashboard.jsx:131-149 | a customer found only in the outreach list, with whole-number lead score n, is found with health 20 n |
| DashboardPage.Dashboard.constructor | src/pages/Dashboard.jsx:26-37 | every hook starts empty: no records, no histogram, KPIs 0, empty search text, no profile |
| DashboardPage.Dashboard.RefreshKpis | src/pages/Dashboard.jsx:60-82 | each KPI is recomputed when its dataset is non-empty and keeps its previous value otherwise |
| DashboardPage.Dashboard.RefreshHistogram | src/pages/Dashboard.jsx:85-98 | the histogram is rebuilt for a non-empty churn dataset and left alone for an empty one |
| DashboardPage.Dashboard.LoadLoyalty | src/pages/Dashboard.jsx:60-82 | a new loyalty dataset replaces the old one and updates only the loyalty KPI, keeping every KPI consistent with its dataset |
| DashboardPage.Dashboard.LoadOutreach | src/pages/Dashboard.jsx:60-82 | a new outreach dataset replaces the old one and updates only the CLV KPI, keeping every KPI consistent with its dataset |
| DashboardPage.Dashboard.LoadChurn | src/pages/Dashboard.jsx:60-98 | a new churn dataset replaces the old one and updates only the churn KPI and the histogram, keeping both consistent with it |
| DashboardPage.Dashboard.SetSearchId | src/pages/Dashboard.jsx:36 | editing the search box sets the search text and nothing else |
| DashboardPage.Dashboard.HandleSearch | src/pages/Dashboard.jsx:128-150 | the Search button sets the profile to the result of the lookup, or keeps it for a blank id |
| DashboardPage.Dashboard.ResolveSearch | src/pages/Dashboard.jsx:128-150 | the body of `handleSearch`, run on the current state, gives the specified search result |
| DashboardPage.Dashboard.HealthScore | src/pages/Dashboard.jsx:139-148 | the scores pushed in turn give the specified health |
| DashboardPage.Dashboard.TierData | src/pages/Dashboard.jsx:101-109 | the tier breakdown of the current loyalty records |
| DashboardPage.Dashboard.SegmentData | src/pages/Dashboard.jsx:111-119 | the segment breakdown of the current outreach records |
| DashboardPage.Dashboard.ScatterPoints | src/pages/Dashboard.jsx:121-125 | `scatterData` as a render computes it: the scatter projection of the current outreach records |
| DashboardPage.EmptyRiskSkippedByHistogram | src/pages/Dashboard.jsx:86-96 | a churn record with an empty risk cell is counted in no histogram bin, yet adds 0 to the churn KPI sum (lines 76-77) while counting in its denominator |

## Left out

- Fetching and CSV parsing (`fetchCsv`, `fetch`, `Papa.parse`): network I/O and a foreign library. Parsed records are inputs to the `Load` methods.
- React's scheduling of state updates and effects. A dataset arriving is one method that assigns the dataset and runs the effects that depend on it at once. The page's render-time values (the two breakdowns and the scatter points) are methods that read the current state.
- Rendering: the JSX, the recharts charts, the header component and the routing.
- `toFixed(2)` on the KPIs, `toFixed(1)` on the health score, and the bin labels: float-to-string formatting. The model keeps the exact number that `toFixed` would format.
- IEEE-754 doubles. The model leaves out rounding, overflow of a huge exponent to Infinity, and negative zero. Finite values are exact reals.
- Labels that name a property inherited from `Object.prototype` (`toString`, `constructor`, `__proto__`, …) are counted as ordinary keys. The page's plain-object accumulator would misbehave on them.
- The `ml-kmeans` import and the `kmeansModel` state: never used.
- Population min/max ranges with min-max normalisation of the scores, nearest-centroid cluster assignment, and the three action tiers (at-risk up to 33, neutral up to 66, healthy above): the page's code has none of them.
- A preloaded identifier-to-record index per dataset in place of the linear scans: the code scans, and `Lookup.Find` models the scan.
