# Economic Dashboard core, modelled in Dafny

The Global Economic Dashboard is a single Streamlit script. It shows simulated
macroeconomic indicators for a chosen country and year range. This project
models the logic inside that script and proves properties of it:

- **the series generator** `get_sample_data`. It builds the inclusive list of
  years and picks a value rule from case-sensitive substring tests on the
  indicator name: draws for "GDP … growth", draws for "Inflation", and
  `base·1.03^i` otherwise, with base 1.0 for a GDP name and 200.0 for any
  other name. It then smooths the values left to right, in place, so that
  `v[i] = 0.7·v[i-1] + 0.3·v[i]`. The normal draws are an input
  (`draws: seq<real>`, one per year), and arithmetic is exact `real`
  (module `Series`, file `series.dfy`);
- **the risk label and the outlook sentence**. Both are three-band threshold
  functions of the score, with inclusive lower bounds at 7 and 4 (module
  `Risk`, `risk.dfy`);
- **the country filter of `get_countries`**. It is a loop that keeps, in
  order, every listing record whose region is not "Aggregates", plus the
  five-country fallback table (module `Countries`,
  `countries.dfy`);
- **the sidebar and metric logic of `run_dashboard`**. This is the region
  list ("All Regions" followed by the sorted distinct regions), the region
  filter, the case-insensitive choice of metric format, and the number each
  metric shows (module `Dashboard`, `dashboard.dfy`);
- **string helpers** (module `Text`, `text.dfy`): Python's `in` on strings,
  `str.lower()` on ASCII, and Python's ordering of `str` values.

The two loops of the modelled core appear as methods with loop invariants.
`Series.GetSampleData` overwrites its local `values` list entry by entry.
`Countries.FilterCountries` appends to its local `countries` list. Each is
proved equal to a recursive specification function (`Smoothed`,
`NonAggregates`), and lemmas state the properties of those functions.

The rule tests run in order: the growth test first, then "Inflation", and only
then the level rule. Base 1.0 therefore needs "GDP", no "growth" and no
"Inflation" (`Series.SelectRuleCases`).

## Model

| member | source | states |
|---|---|---|
| `Series.Years` | simplified-dashboard.py:86 | the year list has `end-start+1` entries (none when `end < start`), and entry i is `start+i` |
| `Series.YearsInclusive` | simplified-dashboard.py:86 | an empty list when `end < start`; otherwise the first year is start, the last is end, and each year is one more than the year before |
| `Series.SelectRule` | simplified-dashboard.py:89-97 | the growth rule only for a name holding "GDP" and "growth", the inflation rule only for a name holding "Inflation"; a level rule only for a name without "Inflation", with base 1.0 or 200.0, and base 1.0 exactly when the name holds "GDP" |
| `Series.LevelCurve` | simplified-dashboard.py:98 | the level curve has n entries, starts at the base, and each entry is 1.03 times the one before |
| `Series.RawValues` | simplified-dashboard.py:89-98 | in every branch, the raw value list has one entry per year (per draw) |
| `Series.Smoothed` | simplified-dashboard.py:101-102 | the smoothing pass preserves the length of the list |
| `Series.GetSampleData` | simplified-dashboard.py:84-107 | the frame's years are `Years(start, end)`; its values are the smoothed raw values of the selected rule, with as many values as years; the in-place loop is proved against this |
| `Series.SmoothedFirst` | simplified-dashboard.py:101 | index 0 is never changed by smoothing |
| `Series.SmoothedStep` | simplified-dashboard.py:101-102 | for every `i ≥ 1`, `out[i] = 0.7·out[i-1] + 0.3·raw[i]`, using the already-smoothed predecessor |
| `Series.SmoothedPrefix` | simplified-dashboard.py:101-102 | smoothing a prefix of the raw values gives the same prefix of the smoothed values (later entries never affect earlier ones) |
| `Series.SmoothedUnique` | simplified-dashboard.py:101-102 | any list of the same length with `out[0] = raw[0]` and the recurrence is the smoothed list, so the recurrence determines the result completely |
| `Series.SmoothedThree` | simplified-dashboard.py:101-102 | worked example: raw `[r0, r1, r2]` smooths to `[r0, 0.7r0+0.3r1, 0.7(0.7r0+0.3r1)+0.3r2]` |
| `Series.SmoothedIsWeightedSum` | simplified-dashboard.py:101-102 | smoothed entry i is the explicit sum of `Weight(i, j)·raw[j]` over j ≤ i, where the weight of j = 0 is `0.7^i` and the weight of j ≥ 1 is `0.3·0.7^(i-j)` |
| `Series.SmoothedConvex` | simplified-dashboard.py:101-102 | those weights are non-negative and sum to 1, so each smoothed value is a convex combination of raw values |
| `Series.SmoothedWithin` | simplified-dashboard.py:101-102 | every smoothed value lies in any interval containing all raw values (between their minimum and maximum) |
| `Series.SmoothedIncreasing` | simplified-dashboard.py:101-102 | for strictly increasing raw values, each smoothed value lies between `raw[0]` and its own raw value, and the smoothed series is strictly increasing |
| `Series.LevelCurveIncreasing` | simplified-dashboard.py:98 | with a positive base, each raw level value is 1.03 times the one before, and the raw values are strictly increasing |
| `Series.LevelSeriesIncreasing` | simplified-dashboard.py:95-102 | every series produced by the level rule is strictly increasing after smoothing |
| `Series.SelectRuleCases` | simplified-dashboard.py:89-97 | growth rule ⇔ the name contains "GDP" and "growth"; inflation rule ⇔ not that, and the name contains "Inflation"; base 1.0 ⇔ "GDP" without "growth" or "Inflation"; base 200.0 ⇔ neither "GDP" nor "Inflation" |
| `Series.CatalogueRules` | simplified-dashboard.py:76-98 | the three catalogue indicators get the rules level base 1.0, growth, and inflation |
| `Series.SelectRuleCaseSensitive` | simplified-dashboard.py:89-97 | the tests are case-sensitive: "gdp growth (annual %)" and "inflation" take the level rule with base 200.0, and "GDP Growth" takes base 1.0 |
| `Risk.RiskAnalysis` | simplified-dashboard.py:114-121 | over all reals: ("High Risk","risk-high") ⇔ score ≥ 7; ("Medium Risk","risk-medium") ⇔ 4 ≤ score < 7; ("Low Risk","risk-low") ⇔ score < 4 |
| `Risk.GenerateOutlook` | simplified-dashboard.py:123-130 | the headwinds, mixed-signals and favourable sentences hold exactly on the same three bands |
| `Risk.OutlookMatchesLabel` | simplified-dashboard.py:114-130 | the outlook is always the sentence that belongs to the label, and two scores share a label exactly when they share an outlook |
| `Risk.RiskMonotone` | simplified-dashboard.py:114-121 | a higher score never gets a milder label |
| `Risk.RiskBoundaries` | simplified-dashboard.py:114-121 | 7.0 → High, 6.999 → Medium, 4.0 → Medium, 3.999 → Low, 2.0 → Low |
| `Countries.NonAggregates` | simplified-dashboard.py:52-59 | the kept rows are never more than the records, and no kept row has region "Aggregates" |
| `Countries.Fallback` | simplified-dashboard.py:65-71 | the fallback table has five rows with distinct ids, none of them in the "Aggregates" region |
| `Countries.FilterCountries` | simplified-dashboard.py:49-59 | the append loop returns exactly `NonAggregates(data)` |
| `Countries.NonAggregatesConcat` | simplified-dashboard.py:52-59 | filtering distributes over concatenation, so the kept records stay in their relative order |
| `Countries.NonAggregatesMembers` | simplified-dashboard.py:52-59 | a row is in the result exactly when some non-"Aggregates" record has that id, that name and that region value |
| `Countries.NonAggregatesKeepsAll` | simplified-dashboard.py:52-59 | the result is never longer than the listing, and it is exactly as long as the listing ⇔ no record is an aggregate |
| `Dashboard.Insert` | simplified-dashboard.py:145 | inserting into a strictly sorted region list keeps it strictly sorted and adds exactly the new region |
| `Dashboard.SortedUnique` | simplified-dashboard.py:145 | `sorted(unique(xs))` is strictly increasing in Python's string order and holds exactly the values of xs |
| `Dashboard.StrictlySortedDetermined` | simplified-dashboard.py:145 | two strictly sorted lists with the same elements are equal |
| `Dashboard.RegionOptions` | simplified-dashboard.py:145 | the first option is "All Regions"; the remaining options are strictly sorted and are exactly the regions that occur in the table |
| `Dashboard.RegionOptionsDetermined` | simplified-dashboard.py:145 | any strictly sorted list of exactly the table's regions equals the options after "All Regions" |
| `Dashboard.FallbackRegionOptions` | simplified-dashboard.py:65-71 | for the five fallback countries, the options are "All Regions", "East Asia & Pacific", "Europe & Central Asia", "North America" and "South Asia" |
| `Dashboard.InRegion` | simplified-dashboard.py:150 | the selected rows are never more than the table's rows, and every one has the chosen region |
| `Dashboard.FilterByRegion` | simplified-dashboard.py:149-152 | "All Regions" leaves the table unchanged; any other choice leaves only rows of that region, never more than the table |
| `Dashboard.InRegionExact` | simplified-dashboard.py:150 | the rows of a region are exactly the table rows with that region |
| `Dashboard.InRegionConcat` | simplified-dashboard.py:150 | the region filter distributes over concatenation, so it keeps the table's order |
| `Dashboard.FilterByRegionSpec` | simplified-dashboard.py:149-152 | "All Regions" returns the whole table; any other choice returns every row of that region and nothing else, in table order |
| `Dashboard.RegionOptionsNonEmpty` | simplified-dashboard.py:145-152 | every offered region other than "All Regions" selects at least one country |
| `Dashboard.MetricFormatOf` | simplified-dashboard.py:212-217 | a percentage only when the lower-cased name holds "growth" or "inflation", trillions only when it holds "gdp", and the plain number only when it holds no "gdp" |
| `Dashboard.MetricFormatCases` | simplified-dashboard.py:212-217 | percentage ⇔ "growth" or "inflation" in the lower-cased name; trillions ⇔ neither of those and "gdp"; plain ⇔ none of the three |
| `Dashboard.MetricValue` | simplified-dashboard.py:213-217 | in trillions, the shown number times 10^12 is the latest value; in the other two formats it is the latest value itself |
| `Dashboard.MetricFormatIgnoresCase` | simplified-dashboard.py:212-217 | names equal after lower-casing get the same format, and lower-casing a name never changes its format |
| `Dashboard.CatalogueFormats` | simplified-dashboard.py:212-217 | "GDP (current US$)" is shown in trillions; the GDP growth and inflation indicators are shown as percentages |
| `Dashboard.RuleAndFormatDisagreeOnCase` | simplified-dashboard.py:212 | "gdp growth (annual %)" is generated by the level rule with base 200.0, yet shown as a percentage (the generator's tests are case-sensitive and the format's are not) |
| `Text.Contains` | simplified-dashboard.py:89-97 | Python's `sub in s`: the empty string is in every string, and a string can only be in one at least as long |
| `Text.Lower` | simplified-dashboard.py:212-214 | the lower-cased name has the same length and lower-cases each character on its own |
| `Text.LexLess` | simplified-dashboard.py:145 | Python's `<` on strings (the order of `sorted`); no string is before itself |
| `Dashboard.GdpLevelBounds` | simplified-dashboard.py:95-102 | the latest smoothed "GDP (current US$)" value lies between 1.0 and `1.03^(n-1)` |
| `Dashboard.GdpLevelShownAsZero` | simplified-dashboard.py:215 | as written, for any range of at most 32 years, the GDP metric's number is positive and below 0.005, so it prints as "$0.00 Trillion" |
| `Dashboard.CorrectedGdpLevelShown` | simplified-dashboard.py:215 | with the corrected display, the GDP metric shows the latest generated level, which is at least 1.00 trillion |

## Left out

- The Streamlit layer (page set-up, CSS, sidebar widgets, metric and progress widgets, spinner, columns, charts, captions) is presentation only.
- The HTTP request and the JSON decoding are network I/O. The filter is modelled over an in-memory list of decoded records, and the fallback table is `Countries.Fallback`.
- The catch-all `except` of lines 46-71 also wraps the filter loop. The typed `CountryRecord` assumes every record is well formed. A record without `id`, `name` or `region.value` would raise inside the `try`, and the whole listing would be replaced by the fallback table; the model does not capture that path.
- Dashboard.RegionOptions: an empty table is not an error in the model, which returns just ["All Regions"]. In the source, an empty listing (or one holding only aggregates) gives `pd.DataFrame([])` at line 61, which has no `region` column, so line 145 raises `KeyError`.
- The `st.cache_data` time-to-live memoisation is provided by the framework and depends on the clock.
- `calculate_risk_score` returns a uniform draw from [2, 8) and ignores its argument. The score is therefore a parameter of `RiskAnalysis` and `GenerateOutlook`, and both are total over all reals.
- The `np.random.normal` draws are not sampled. They are the `draws` parameter, with exactly one draw per year.
- Series.GetSampleData: the level rule ignores its draws, but it still needs a `draws` list of the year count, because the list length carries the number of years.
- IEEE floating-point rounding is not modelled: arithmetic is exact `real`.
- The `:.2f` string formatting is not modelled. `Dashboard.MetricValue` gives the number that would be formatted, not the text.
- The pandas DataFrames are modelled as sequences. The sample frame is two columns (`SampleFrame`), and the countries table is a sequence of `Country` rows.
- Text.Lower: lowers ASCII A–Z only. Python's `str.lower()` also lowers other Unicode letters, and no name used here contains one.
- The country picker (the sorted names of the filtered table, and the id lookup by name, lines 155-163) is not modelled. Neither is the indicator multiselect. `get_indicators` appears only as the three name constants.
- `time.sleep` and `pd.Timestamp.now()` are left out because they involve the clock.

## Findings

| source | as written | input that shows it | evidently intended | confidence | as-written member | corrected member |
|---|---|---|---|---|---|---|
| simplified-dashboard.py:215 | the latest GDP value is divided by 10^12 before it is printed as trillions, but the level rule generates GDP already in trillions (base 1.0, line 97) | indicator "GDP (current US$)", years 2015–2023: the latest smoothed value is about 1.19. Divided by 10^12 it prints "$0.00 Trillion" | show the generated level as trillions, about "$1.19 Trillion" | not executed; medium | `Dashboard.GdpLevelShownAsZero` (display `Dashboard.MetricValue`) | `Dashboard.CorrectedGdpLevelShown` (display `Dashboard.CorrectedMetricValue`) |
