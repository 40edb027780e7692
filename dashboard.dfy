/**
 * The logic `run_dashboard` applies between the widgets: the region list
 * and the region filter of the sidebar, the display format of each metric,
 * and the number each metric shows.
 */
module Dashboard {
  import opened Text
  import opened Series
  import opened Countries

  const AllRegions := "All Regions"

  // ---------------------------------------------------------------- regions

  predicate StrictlySorted(s: seq<string>) {
    forall i, j :: 0 <= i < j < |s| ==> LexLess(s[i], s[j])
  }

  /** Insert `x` into a strictly sorted list, leaving it alone if `x` is already there. */
  function Insert(x: string, s: seq<string>): (r: seq<string>)
    requires StrictlySorted(s)
    ensures StrictlySorted(r)
    ensures forall y :: y in r <==> y in s || y == x
  {
    if s == [] then [x]
    else if x == s[0] then s
    else if LexLess(x, s[0]) then
      assert forall j :: 0 < j < |s| ==> LexLess(x, s[j]) by {
        forall j | 0 < j < |s| ensures LexLess(x, s[j]) { LexTransitive(x, s[0], s[j]); }
      }
      [x] + s
    else
      LexTotal(x, s[0]);
      var rest := Insert(x, s[1..]);
      assert forall y :: y in rest ==> LexLess(s[0], y);
      [s[0]] + rest
  }

  /** `sorted(set(xs))`: the distinct values of `xs` in increasing order. */
  function SortedUnique(xs: seq<string>): (r: seq<string>)
    ensures StrictlySorted(r)
    ensures forall y :: y in r <==> y in xs
  {
    if xs == [] then [] else Insert(xs[0], SortedUnique(xs[1..]))
  }

  /** A strictly sorted list is determined by its elements. */
  lemma {:induction false} StrictlySortedDetermined(a: seq<string>, b: seq<string>)
    requires StrictlySorted(a) && StrictlySorted(b)
    requires forall y :: y in a <==> y in b
    ensures a == b
    decreases |a|
  {
    if a != [] {
      assert a[0] in b;
    }
    if b != [] {
      assert b[0] in a;
    }
    if a != [] && b != [] {
      var i :| 0 <= i < |b| && b[i] == a[0];
      var k :| 0 <= k < |a| && a[k] == b[0];
      if i > 0 && k > 0 {
        LexAsymmetric(a[0], b[0]);
        assert false;
      }
      LexIrreflexive(a[0]);
      LexIrreflexive(b[0]);
      assert a[0] == b[0];
      forall y ensures y in a[1..] <==> y in b[1..] {
        LexIrreflexive(y);
        if y in a[1..] {
          var j :| 0 <= j < |a[1..]| && a[1..][j] == y;
          assert LexLess(a[0], a[j + 1]);
          assert a[j + 1] in a;
          var m :| 0 <= m < |b| && b[m] == y;
          assert m != 0;
          assert b[1..][m - 1] == y;
        }
        if y in b[1..] {
          var j :| 0 <= j < |b[1..]| && b[1..][j] == y;
          assert LexLess(b[0], b[j + 1]);
          assert b[j + 1] in b;
          var m :| 0 <= m < |a| && a[m] == y;
          assert m != 0;
          assert a[1..][m - 1] == y;
        }
      }
      StrictlySortedDetermined(a[1..], b[1..]);
      assert a == [a[0]] + a[1..] && b == [b[0]] + b[1..];
    }
  }

  /** The `region` column of the countries table. */
  function RegionColumn(countries: seq<Country>): (r: seq<string>)
    ensures |r| == |countries|
  {
    seq(|countries|, i requires 0 <= i < |countries| => countries[i].region)
  }

  /**
   * `["All Regions"] + sorted(countries_df['region'].unique().tolist())`:
   * the first option is "All Regions"; the rest are the distinct regions of
   * the table, each once, in increasing order.
   */
  function RegionOptions(countries: seq<Country>): (r: seq<string>)
    ensures |r| >= 1 && r[0] == AllRegions
    ensures StrictlySorted(r[1..])
    ensures forall y :: y in r[1..] <==> exists c :: c in countries && c.region == y
  {
    var regions := RegionColumn(countries);
    var unique := SortedUnique(regions);
    assert forall y :: y in regions <==> exists c :: c in countries && c.region == y by {
      forall y ensures y in regions <==> exists c :: c in countries && c.region == y {
        if y in regions {
          var i :| 0 <= i < |regions| && regions[i] == y;
          assert countries[i] in countries;
        }
        if exists c :: c in countries && c.region == y {
          var c :| c in countries && c.region == y;
          var i :| 0 <= i < |countries| && countries[i] == c;
          assert regions[i] == y;
        }
      }
    }
    assert ([AllRegions] + unique)[1..] == unique;
    [AllRegions] + unique
  }

  /** Python's sorted list of unique regions is the only list with these properties. */
  lemma RegionOptionsDetermined(countries: seq<Country>, options: seq<string>)
    requires StrictlySorted(options)
    requires forall y :: y in options <==> exists c :: c in countries && c.region == y
    ensures RegionOptions(countries) == [AllRegions] + options
  {
    var r := RegionOptions(countries);
    StrictlySortedDetermined(r[1..], options);
    assert r == [r[0]] + r[1..];
  }

  const FallbackRegions := ["East Asia & Pacific", "Europe & Central Asia", "North America", "South Asia"]

  lemma FallbackRegionsSorted(options: seq<string>)
    requires options == FallbackRegions
    ensures StrictlySorted(options)
  {
    assert LexLess(options[0], options[1]) && LexLess(options[0], options[2]) && LexLess(options[0], options[3]);
    assert LexLess(options[1], options[2]) && LexLess(options[1], options[3]);
    assert LexLess(options[2], options[3]);
  }

  lemma FallbackRegionsPresent(countries: seq<Country>, options: seq<string>)
    requires countries == Fallback() && options == FallbackRegions
    ensures forall y :: y in options <==> exists c :: c in countries && c.region == y
  {
    forall y ensures y in options <==> exists c :: c in countries && c.region == y {
      if y in options {
        var k :| 0 <= k < 4 && options[k] == y;
        var c := if k == 0 then countries[2] else if k == 1 then countries[1]
                 else if k == 2 then countries[0] else countries[4];
        assert c in countries && c.region == y;
      }
    }
  }

  /** With the fallback table the sidebar offers "All Regions" and four regions, alphabetically. */
  lemma FallbackRegionOptions(countries: seq<Country>)
    requires countries == Fallback()
    ensures RegionOptions(countries) == [AllRegions] + FallbackRegions
  {
    var options := FallbackRegions;
    FallbackRegionsSorted(options);
    FallbackRegionsPresent(countries, options);
    RegionOptionsDetermined(countries, options);
  }

  /**
   * `countries_df[countries_df['region'] == region]`: matching rows, in table
   * order; never more rows than the table, all of them of that region.
   */
  function InRegion(countries: seq<Country>, region: string): (r: seq<Country>)
    ensures |r| <= |countries|
    ensures forall k :: 0 <= k < |r| ==> r[k].region == region
  {
    if countries == [] then []
    else (if countries[0].region == region then [countries[0]] else []) + InRegion(countries[1..], region)
  }

  /**
   * The sidebar's country filter: "All Regions" leaves the table as it is,
   * any other choice leaves only rows of the chosen region.
   */
  function FilterByRegion(countries: seq<Country>, selected: string): (r: seq<Country>)
    ensures selected == AllRegions ==> r == countries
    ensures selected != AllRegions ==> forall k :: 0 <= k < |r| ==> r[k].region == selected
    ensures |r| <= |countries|
  {
    if selected != AllRegions then InRegion(countries, selected) else countries
  }

  /** The rows of a region are exactly the table rows with that region, in order. */
  lemma {:induction false} InRegionExact(countries: seq<Country>, region: string)
    ensures forall c :: c in InRegion(countries, region) <==> c in countries && c.region == region
  {
    if countries != [] {
      InRegionExact(countries[1..], region);
      assert countries == [countries[0]] + countries[1..];
    }
  }

  lemma {:induction false} InRegionConcat(a: seq<Country>, b: seq<Country>, region: string)
    ensures InRegion(a + b, region) == InRegion(a, region) + InRegion(b, region)
  {
    if a != [] {
      assert (a + b)[1..] == a[1..] + b;
      InRegionConcat(a[1..], b, region);
    } else {
      assert a + b == b;
    }
  }

  /**
   * "All Regions" keeps the whole table; any other choice keeps every row of
   * that region and nothing else, and keeps the table's order.
   */
  lemma FilterByRegionSpec(countries: seq<Country>, selected: string)
    ensures selected == AllRegions ==> FilterByRegion(countries, selected) == countries
    ensures selected != AllRegions ==>
      forall c :: c in FilterByRegion(countries, selected) <==> c in countries && c.region == selected
    ensures forall a, b :: a + b == countries ==>
      FilterByRegion(countries, selected) == FilterByRegion(a, selected) + FilterByRegion(b, selected)
  {
    InRegionExact(countries, selected);
    forall a, b | a + b == countries
      ensures FilterByRegion(countries, selected) == FilterByRegion(a, selected) + FilterByRegion(b, selected)
    {
      InRegionConcat(a, b, selected);
    }
  }

  /** Every region offered besides "All Regions" selects at least one country. */
  lemma RegionOptionsNonEmpty(countries: seq<Country>, selected: string)
    requires selected in RegionOptions(countries) && selected != AllRegions
    ensures FilterByRegion(countries, selected) != []
  {
    var r := RegionOptions(countries);
    var i :| 0 <= i < |r| && r[i] == selected;
    assert r[1..][i - 1] == selected;
    var c :| c in countries && c.region == selected;
    InRegionExact(countries, selected);
    assert c in FilterByRegion(countries, selected);
  }

  // ---------------------------------------------------------------- metrics

  /** How a metric's latest value is shown. */
  datatype MetricFormat =
    | Percent     // f"{v:.2f}%"
    | Trillions   // f"${v/1e12:.2f} Trillion"
    | Plain       // f"{v:.2f}"

  /**
   * The case-insensitive format choice for an indicator name: a percentage
   * needs "growth" or "inflation" in the lower-cased name, trillions need "gdp".
   */
  function MetricFormatOf(indicator: string): (r: MetricFormat)
    ensures r == Percent ==> Contains(Lower(indicator), "growth") || Contains(Lower(indicator), "inflation")
    ensures r == Trillions ==> Contains(Lower(indicator), "gdp")
    ensures r == Plain ==> !Contains(Lower(indicator), "gdp")
  {
    var lower := Lower(indicator);
    if Contains(lower, "growth") || Contains(lower, "inflation") then Percent
    else if Contains(lower, "gdp") then Trillions
    else Plain
  }

  /**
   * The three formats partition the indicator names: growth or inflation wins
   * over gdp, and a name with none of the three is shown plainly.
   */
  lemma MetricFormatCases(indicator: string)
    ensures MetricFormatOf(indicator) == Percent <==>
      Contains(Lower(indicator), "growth") || Contains(Lower(indicator), "inflation")
    ensures MetricFormatOf(indicator) == Trillions <==>
      !Contains(Lower(indicator), "growth") && !Contains(Lower(indicator), "inflation")
      && Contains(Lower(indicator), "gdp")
    ensures MetricFormatOf(indicator) == Plain <==>
      !Contains(Lower(indicator), "growth") && !Contains(Lower(indicator), "inflation")
      && !Contains(Lower(indicator), "gdp")
  {
  }

  /** Names that differ only in the case of ASCII letters get the same format. */
  lemma MetricFormatIgnoresCase(a: string, b: string)
    requires Lower(a) == Lower(b)
    ensures MetricFormatOf(a) == MetricFormatOf(b)
    ensures MetricFormatOf(Lower(a)) == MetricFormatOf(a)
  {
    LowerIdempotent(a);
  }

  lemma GdpCurrentFormat(indicator: string)
    requires indicator == GdpCurrent
    ensures Lower(indicator) == "gdp (current us$)"
    ensures MetricFormatOf(indicator) == Trillions
  {
    var lower := Lower(indicator);
    assert lower == "gdp (current us$)";
    MissingCharNotContained(lower, "growth", 'w');
    MissingCharNotContained(lower, "inflation", 'f');
    ContainsFromOccurrence(lower, "gdp", 0);
  }

  lemma GdpGrowthFormat(indicator: string)
    requires indicator == GdpGrowth
    ensures Lower(indicator) == "gdp growth (annual %)"
    ensures MetricFormatOf(indicator) == Percent
  {
    var lower := Lower(indicator);
    assert lower == "gdp growth (annual %)";
    assert lower[4..10] == "growth";
    ContainsFromOccurrence(lower, "growth", 4);
  }

  lemma InflationCpiFormat(indicator: string)
    requires indicator == InflationCpi
    ensures MetricFormatOf(indicator) == Percent
  {
    var lower := Lower(indicator);
    assert indicator[..9] == "Inflation";
    assert Lower("Inflation") == "inflation";
    assert lower[..9] == Lower(indicator[..9]);
    ContainsFromOccurrence(lower, "inflation", 0);
  }

  /** The catalogue's GDP level shows in trillions; its growth and inflation rates as percentages. */
  lemma CatalogueFormats()
    ensures MetricFormatOf(GdpCurrent) == Trillions
    ensures MetricFormatOf(GdpGrowth) == Percent
    ensures MetricFormatOf(InflationCpi) == Percent
  {
    GdpCurrentFormat(GdpCurrent);
    GdpGrowthFormat(GdpGrowth);
    InflationCpiFormat(InflationCpi);
  }

  /**
   * The generator's tests are case-sensitive and the format's are not: a
   * lower-case growth name is generated as a level series of base 200 yet
   * shown as a percentage.
   */
  lemma RuleAndFormatDisagreeOnCase(indicator: string)
    requires indicator == "gdp growth (annual %)"
    ensures SelectRule(indicator) == Level(200.0)
    ensures MetricFormatOf(indicator) == Percent
  {
    NoCapitalsIsBase200(indicator);
    var lower := Lower(indicator);
    assert lower == indicator;
    assert lower[4..10] == "growth";
    ContainsFromOccurrence(lower, "growth", 4);
  }

  /** The number a metric shows, as written: trillions divide the value by 10^12. */
  function MetricValue(format: MetricFormat, latest: real): (r: real)
    ensures format == Trillions ==> r * 1000000000000.0 == latest
    ensures format != Trillions ==> r == latest
  {
    if format == Trillions then latest / 1000000000000.0 else latest
  }

  /**
   * As written, the latest GDP level always reads "$0.00 Trillion" for any
   * year range of at most 32 years: the generator's level series is already
   * in trillions (base 1.0), so dividing by 10^12 leaves less than 0.005.
   */
  lemma GdpLevelShownAsZero(startYear: int, endYear: int, draws: seq<real>)
    requires startYear <= endYear < startYear + 32
    requires |draws| == YearCount(startYear, endYear)
    ensures var v := SampleValues(GdpCurrent, draws);
      0.0 < MetricValue(MetricFormatOf(GdpCurrent), v[|v| - 1]) < 0.005
  {
    var v := SampleValues(GdpCurrent, draws);
    var n := |draws|;
    GdpLevelBounds(draws);
    CatalogueFormats();
    LevelGrowthBound(n - 1);
  }

  /** The latest smoothed GDP level lies between 1.0 and 1.03^(n-1). */
  lemma GdpLevelBounds(draws: seq<real>)
    requires |draws| > 0
    ensures var v := SampleValues(GdpCurrent, draws);
      1.0 <= v[|v| - 1] <= Pow(1.03, |draws| - 1)
  {
    var n := |draws|;
    CatalogueRules();
    var raw := LevelCurve(1.0, n);
    LevelCurveIncreasing(1.0, n);
    SmoothedIncreasing(raw);
    assert raw[0] == 1.0 * Pow(1.03, 0);
    assert raw[n - 1] == 1.0 * Pow(1.03, n - 1);
  }

  /** The corrected display: the level series is in trillions already, so every format shows the value as it is. */
  function CorrectedMetricValue(format: MetricFormat, latest: real): real {
    latest
  }

  /** With the correction, the GDP metric shows the latest generated level, at least 1.00 trillion. */
  lemma CorrectedGdpLevelShown(startYear: int, endYear: int, draws: seq<real>)
    requires startYear <= endYear
    requires |draws| == YearCount(startYear, endYear)
    ensures var v := SampleValues(GdpCurrent, draws);
      1.0 <= CorrectedMetricValue(MetricFormatOf(GdpCurrent), v[|v| - 1]) <= Pow(1.03, |draws| - 1)
  {
    GdpLevelBounds(draws);
  }
}
