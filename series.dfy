/**
 * The synthetic series generator `get_sample_data`: the inclusive year list,
 * the choice of a value rule from the indicator name, the raw values of each
 * rule and the left-to-right smoothing pass. Random draws are an input: one
 * real per generated year. Arithmetic is exact (`real`).
 */
module Series {
  import opened Text

  /** How the raw values of a series are produced. */
  datatype Rule =
    | Growth              // independent draws around 3.0
    | Inflation           // independent draws around 2.5
    | Level(base: real)   // base * 1.03^i

  /** The two columns of the returned frame, one entry per year. */
  datatype SampleFrame = SampleFrame(year: seq<int>, value: seq<real>)

  /** Number of years in `range(startYear, endYear + 1)`. */
  function YearCount(startYear: int, endYear: int): nat {
    if endYear < startYear then 0 else endYear - startYear + 1
  }

  /** `list(range(startYear, endYear + 1))`. */
  function Years(startYear: int, endYear: int): (r: seq<int>)
    ensures |r| == YearCount(startYear, endYear)
    ensures forall i :: 0 <= i < |r| ==> r[i] == startYear + i
    decreases endYear - startYear + 1
  {
    if endYear < startYear then [] else [startYear] + Years(startYear + 1, endYear)
  }

  /** The years run from `startYear` to `endYear`, each one more than the one before. */
  lemma YearsInclusive(startYear: int, endYear: int)
    ensures endYear < startYear ==> Years(startYear, endYear) == []
    ensures startYear <= endYear ==>
      Years(startYear, endYear)[0] == startYear &&
      Years(startYear, endYear)[|Years(startYear, endYear)| - 1] == endYear
    ensures forall i :: 0 < i < |Years(startYear, endYear)| ==>
      Years(startYear, endYear)[i] == Years(startYear, endYear)[i - 1] + 1
  {
  }

  /**
   * The rule chosen by the case-sensitive substring tests on the indicator name:
   * a growth series needs both "GDP" and "growth", an inflation series "Inflation",
   * and a level series starts at 1.0 exactly when the name holds "GDP", else at 200.0.
   */
  function SelectRule(indicator: string): (r: Rule)
    ensures r.Growth? ==> Contains(indicator, "GDP") && Contains(indicator, "growth")
    ensures r.Inflation? ==> Contains(indicator, "Inflation")
    ensures r.Level? ==> !Contains(indicator, "Inflation")
    ensures r.Level? ==> r.base == 1.0 || r.base == 200.0
    ensures r.Level? ==> (r.base == 1.0 <==> Contains(indicator, "GDP"))
  {
    if Contains(indicator, "GDP") && Contains(indicator, "growth") then Growth
    else if Contains(indicator, "Inflation") then Inflation
    else Level(if Contains(indicator, "GDP") then 1.0 else 200.0)
  }

  /** `x ** i` for a natural exponent. */
  function Pow(x: real, i: nat): real {
    if i == 0 then 1.0 else x * Pow(x, i - 1)
  }

  /** The level curve `[base * (1 + 0.03) ** i for i in range(n)]`. */
  function LevelCurve(base: real, n: nat): (r: seq<real>)
    ensures |r| == n
    ensures n > 0 ==> r[0] == base
    ensures forall i :: 0 < i < n ==> r[i] == r[i - 1] * 1.03
  {
    seq(n, i requires 0 <= i < n => base * Pow(1.0 + 0.03, i))
  }

  /** Raw (unsmoothed) values: the draws themselves, or the level curve of the same length. */
  function RawValues(rule: Rule, draws: seq<real>): (r: seq<real>)
    ensures |r| == |draws|
  {
    match rule
    case Growth => draws
    case Inflation => draws
    case Level(base) => LevelCurve(base, |draws|)
  }

  /**
   * The smoothing pass as a function: element 0 is kept, and element i is
   * 0.7 times the already-smoothed element i-1 plus 0.3 times raw element i.
   */
  function Smoothed(raw: seq<real>): (out: seq<real>)
    ensures |out| == |raw|
    decreases |raw|
  {
    if |raw| <= 1 then raw
    else
      var prev := Smoothed(raw[..|raw| - 1]);
      prev + [0.7 * prev[|prev| - 1] + 0.3 * raw[|raw| - 1]]
  }

  /** The smoothed values of the frame `get_sample_data` returns. */
  function SampleValues(indicator: string, draws: seq<real>): (r: seq<real>)
    ensures |r| == |draws|
  {
    Smoothed(RawValues(SelectRule(indicator), draws))
  }

  /**
   * `get_sample_data(indicator, start_year, end_year)`, with `draws` standing for
   * the normal samples taken for the growth and inflation rules (one per year;
   * the level rule ignores them). The loop overwrites `values` in place.
   */
  method GetSampleData(indicator: string, startYear: int, endYear: int, draws: seq<real>)
    returns (frame: SampleFrame)
    requires |draws| == YearCount(startYear, endYear)
    ensures frame.year == Years(startYear, endYear)
    ensures |frame.value| == |frame.year|
    ensures frame.value == Smoothed(RawValues(SelectRule(indicator), draws))
  {
    var years := Years(startYear, endYear);
    var values := RawValues(SelectRule(indicator), draws);
    ghost var raw := values;
    if |raw| > 0 {
      SmoothedFirst(raw);
    }
    var i := 1;
    while i < |values|
      invariant |values| == |raw|
      invariant 1 <= i && (|raw| == 0 || i <= |raw|)
      invariant forall k :: 0 <= k < i && k < |raw| ==> values[k] == Smoothed(raw)[k]
      invariant forall k :: i <= k < |raw| ==> values[k] == raw[k]
    {
      SmoothedStep(raw, i);
      values := values[i := 0.7 * values[i - 1] + 0.3 * values[i]];
      i := i + 1;
    }
    assert values == Smoothed(raw);
    frame := SampleFrame(years, values);
  }

  /** Smoothing a prefix gives the prefix of the smoothed sequence. */
  lemma {:induction false} SmoothedPrefix(raw: seq<real>, k: nat)
    requires k <= |raw|
    ensures Smoothed(raw)[..k] == Smoothed(raw[..k])
    decreases |raw|
  {
    if k < |raw| {
      var init := raw[..|raw| - 1];
      assert init[..k] == raw[..k];
      SmoothedPrefix(init, k);
      if |raw| > 1 {
        assert Smoothed(raw)[..k] == Smoothed(init)[..k];
      }
    } else {
      assert raw[..k] == raw;
    }
  }

  /** Index 0 is never changed by smoothing. */
  lemma {:induction false} SmoothedFirst(raw: seq<real>)
    requires |raw| > 0
    ensures Smoothed(raw)[0] == raw[0]
  {
    SmoothedPrefix(raw, 1);
  }

  /** Each later element follows the recurrence over the already-smoothed predecessor. */
  lemma {:induction false} SmoothedStep(raw: seq<real>, i: nat)
    requires 1 <= i < |raw|
    ensures Smoothed(raw)[i] == 0.7 * Smoothed(raw)[i - 1] + 0.3 * raw[i]
  {
    var p := raw[..i + 1];
    var sm := Smoothed(raw);
    var head := Smoothed(raw[..i]);
    assert p[..|p| - 1] == raw[..i];
    assert Smoothed(p) == head + [0.7 * head[i - 1] + 0.3 * raw[i]];
    SmoothedPrefix(raw, i + 1);
    SmoothedPrefix(raw, i);
    assert sm[i] == sm[..i + 1][i];
    assert sm[i - 1] == sm[..i][i - 1];
  }

  /** The two facts above pin the smoothed sequence down: any sequence satisfying them is it. */
  lemma SmoothedUnique(raw: seq<real>, out: seq<real>)
    requires |out| == |raw|
    requires |raw| > 0 ==> out[0] == raw[0]
    requires forall i :: 1 <= i < |raw| ==> out[i] == 0.7 * out[i - 1] + 0.3 * raw[i]
    ensures out == Smoothed(raw)
  {
    var sm := Smoothed(raw);
    var k := 0;
    while k < |raw|
      invariant k <= |raw|
      invariant forall j :: 0 <= j < k ==> out[j] == sm[j]
    {
      if k == 0 {
        SmoothedFirst(raw);
      } else {
        SmoothedStep(raw, k);
      }
      k := k + 1;
    }
  }

  /** The worked example: raw values [r0, r1, r2]. */
  lemma SmoothedThree(r0: real, r1: real, r2: real)
    ensures Smoothed([r0, r1, r2]) == [r0, 0.7 * r0 + 0.3 * r1, 0.7 * (0.7 * r0 + 0.3 * r1) + 0.3 * r2]
  {
    assert [r0, r1, r2][..2] == [r0, r1];
    assert [r0, r1][..1] == [r0];
    assert Smoothed([r0]) == [r0];
    assert Smoothed([r0, r1]) == [r0, 0.7 * r0 + 0.3 * r1];
  }

  /** Smoothing stays inside any interval that holds every raw value (a convex combination). */
  lemma {:induction false} SmoothedWithin(raw: seq<real>, lo: real, hi: real)
    requires forall j :: 0 <= j < |raw| ==> lo <= raw[j] <= hi
    ensures forall i :: 0 <= i < |raw| ==> lo <= Smoothed(raw)[i] <= hi
  {
    var sm := Smoothed(raw);
    var k := 0;
    while k < |raw|
      invariant k <= |raw|
      invariant forall j :: 0 <= j < k ==> lo <= sm[j] <= hi
    {
      if k == 0 {
        SmoothedFirst(raw);
      } else {
        SmoothedStep(raw, k);
      }
      k := k + 1;
    }
  }

  predicate StrictlyIncreasing(s: seq<real>) {
    forall i, j :: 0 <= i < j < |s| ==> s[i] < s[j]
  }

  /**
   * For strictly increasing raw values, each smoothed value lags behind its raw
   * value and the smoothed series is itself strictly increasing.
   */
  lemma {:induction false} SmoothedIncreasing(raw: seq<real>)
    requires StrictlyIncreasing(raw)
    ensures forall i :: 0 <= i < |raw| ==> raw[0] <= Smoothed(raw)[i] <= raw[i]
    ensures StrictlyIncreasing(Smoothed(raw))
  {
    var sm := Smoothed(raw);
    var k := 0;
    while k < |raw|
      invariant k <= |raw|
      invariant forall j :: 0 <= j < k ==> raw[0] <= sm[j] <= raw[j]
      invariant forall j :: 0 < j < k ==> sm[j - 1] < sm[j]
    {
      if k == 0 {
        SmoothedFirst(raw);
      } else {
        LagStep(raw, sm, k);
      }
      k := k + 1;
    }
    ChainIncreasing(sm);
  }

  /** One step of the argument above, at index k. */
  lemma LagStep(raw: seq<real>, sm: seq<real>, k: nat)
    requires 0 < k < |raw| && sm == Smoothed(raw)
    requires raw[k - 1] < raw[k] && raw[0] <= sm[k - 1] <= raw[k - 1]
    ensures raw[0] <= sm[k] <= raw[k] && sm[k - 1] < sm[k]
  {
    SmoothedStep(raw, k);
  }

  /** Adjacent increase implies increase between any two positions. */
  lemma ChainIncreasing(s: seq<real>)
    requires forall j :: 0 < j < |s| ==> s[j - 1] < s[j]
    ensures StrictlyIncreasing(s)
  {
    forall i, j | 0 <= i < j < |s| ensures s[i] < s[j] {
      var k := i + 1;
      while k < j
        invariant i < k <= j
        invariant s[i] < s[k]
      {
        k := k + 1;
      }
    }
  }

  lemma {:induction false} PowPositive(x: real, i: nat)
    requires x > 0.0
    ensures Pow(x, i) > 0.0
  {
    if i > 0 {
      PowPositive(x, i - 1);
    }
  }

  /** `Pow` grows with its base. */
  lemma {:induction false} PowMonotoneBase(x: real, y: real, i: nat)
    requires 0.0 <= x <= y
    ensures 0.0 <= Pow(x, i) <= Pow(y, i)
  {
    if i > 0 {
      PowMonotoneBase(x, y, i - 1);
      var p, q := Pow(x, i - 1), Pow(y, i - 1);
      assert x * p <= y * p <= y * q;
    }
  }

  /** `Pow` grows with its exponent when the base is at least one. */
  lemma {:induction false} PowMonotoneExponent(x: real, i: nat, j: nat)
    requires x >= 1.0 && i <= j
    ensures 1.0 <= Pow(x, i) <= Pow(x, j)
  {
    if i < j {
      PowMonotoneExponent(x, i, j - 1);
      var q := Pow(x, j - 1);
      assert q <= x * q;
    } else if i > 0 {
      PowMonotoneExponent(x, i - 1, i - 1);
      var q := Pow(x, i - 1);
      assert q <= x * q;
    }
  }

  lemma {:induction false} PowAdd(x: real, a: nat, b: nat)
    ensures Pow(x, a + b) == Pow(x, a) * Pow(x, b)
  {
    if a > 0 {
      PowAdd(x, a - 1, b);
      var p, q := Pow(x, a - 1), Pow(x, b);
      assert x * (p * q) == (x * p) * q;
    }
  }

  lemma PowTwoThirtyTwo()
    ensures Pow(2.0, 32) == 4294967296.0
  {
    assert Pow(2.0, 1) == 2.0;
    PowAdd(2.0, 1, 1);
    assert Pow(2.0, 2) == 4.0;
    PowAdd(2.0, 2, 2);
    assert Pow(2.0, 4) == 16.0;
    PowAdd(2.0, 4, 4);
    assert Pow(2.0, 8) == 256.0;
    PowAdd(2.0, 8, 8);
    assert Pow(2.0, 16) == 65536.0;
    PowAdd(2.0, 16, 16);
  }

  /** Every exponent up to 32 keeps `1.03^i` below 2^32. */
  lemma LevelGrowthBound(i: nat)
    requires i <= 32
    ensures 1.0 <= Pow(1.03, i) <= 4294967296.0
  {
    PowMonotoneExponent(1.03, 0, i);
    PowMonotoneBase(1.03, 2.0, i);
    PowMonotoneExponent(2.0, i, 32);
    PowTwoThirtyTwo();
  }

  /** With a positive base the level curve rises strictly, by 3% per step. */
  lemma LevelCurveIncreasing(base: real, n: nat)
    requires base > 0.0
    ensures forall i :: 0 < i < n ==> LevelCurve(base, n)[i] == LevelCurve(base, n)[i - 1] * 1.03
    ensures StrictlyIncreasing(LevelCurve(base, n))
  {
    var c := LevelCurve(base, n);
    forall j | 0 < j < n ensures c[j] == c[j - 1] * 1.03 && c[j - 1] < c[j] {
      PowPositive(1.03, j - 1);
      var p := Pow(1.03, j - 1);
      assert c[j] == base * (1.03 * p);
      assert base * p > 0.0;
    }
    ChainIncreasing(c);
  }

  /** Level-rule series with a positive base come out strictly increasing after smoothing. */
  lemma LevelSeriesIncreasing(indicator: string, draws: seq<real>)
    requires SelectRule(indicator).Level?
    ensures StrictlyIncreasing(SampleValues(indicator, draws))
  {
    var base := SelectRule(indicator).base;
    LevelCurveIncreasing(base, |draws|);
    SmoothedIncreasing(LevelCurve(base, |draws|));
  }

  /** Explicit form of the smoothing: the weight raw element j carries in smoothed element i. */
  function Weight(i: nat, j: nat): real
    requires j <= i
  {
    if j == 0 then Pow(0.7, i) else 0.3 * Pow(0.7, i - j)
  }

  /** Sum of Weight(i, j) * raw[j] over j < m. */
  function WeightedSum(raw: seq<real>, i: nat, m: nat): real
    requires m <= i + 1 && m <= |raw|
  {
    if m == 0 then 0.0 else WeightedSum(raw, i, m - 1) + Weight(i, m - 1) * raw[m - 1]
  }

  /** One step later, each weight is 0.7 times what it was. */
  lemma WeightStep(i: nat, j: nat)
    requires j <= i
    ensures Weight(i + 1, j) == 0.7 * Weight(i, j)
  {
    if j == 0 {
      assert Pow(0.7, i + 1) == 0.7 * Pow(0.7, i);
    } else {
      assert Pow(0.7, i + 1 - j) == 0.7 * Pow(0.7, i - j);
    }
  }

  /** Moving one step on scales every weight already present by 0.7. */
  lemma {:induction false} WeightedSumShift(raw: seq<real>, i: nat, m: nat)
    requires m <= i + 1 && m <= |raw|
    ensures WeightedSum(raw, i + 1, m) == 0.7 * WeightedSum(raw, i, m)
  {
    if m > 0 {
      var j := m - 1;
      WeightedSumShift(raw, i, j);
      WeightStep(i, j);
      var w, r := Weight(i, j), raw[j];
      assert (0.7 * w) * r == 0.7 * (w * r);
    }
  }

  /** Smoothed element i is the weighted sum of raw elements 0..i. */
  lemma {:induction false} SmoothedIsWeightedSum(raw: seq<real>, i: nat)
    requires i < |raw|
    ensures Smoothed(raw)[i] == WeightedSum(raw, i, i + 1)
  {
    if i == 0 {
      SmoothedFirst(raw);
      assert WeightedSum(raw, 0, 1) == Weight(0, 0) * raw[0];
    } else {
      SmoothedIsWeightedSum(raw, i - 1);
      SmoothedStep(raw, i);
      WeightedSumShift(raw, i - 1, i);
      assert Weight(i, i) == 0.3;
    }
  }

  /** The weights are non-negative and sum to one: each smoothed value is a convex combination. */
  lemma SmoothedConvex(raw: seq<real>, i: nat)
    requires i < |raw|
    ensures Smoothed(raw)[i] == WeightedSum(raw, i, i + 1)
    ensures forall j :: 0 <= j <= i ==> Weight(i, j) >= 0.0
    ensures WeightedSum(seq(i + 1, _ => 1.0), i, i + 1) == 1.0
  {
    SmoothedIsWeightedSum(raw, i);
    forall j | 0 <= j <= i ensures Weight(i, j) >= 0.0 {
      PowPositive(0.7, i - j);
    }
    var ones := seq(i + 1, _ => 1.0);
    SmoothedWithin(ones, 1.0, 1.0);
    SmoothedIsWeightedSum(ones, i);
  }

  /** Names of the indicator catalogue (`get_indicators`). */
  const GdpCurrent := "GDP (current US$)"
  const GdpGrowth := "GDP growth (annual %)"
  const InflationCpi := "Inflation, consumer prices (annual %)"

  /** The three rules, exactly as the substring tests choose them, in priority order. */
  lemma SelectRuleCases(indicator: string)
    ensures SelectRule(indicator) == Growth <==>
      Contains(indicator, "GDP") && Contains(indicator, "growth")
    ensures SelectRule(indicator) == Inflation <==>
      !(Contains(indicator, "GDP") && Contains(indicator, "growth")) && Contains(indicator, "Inflation")
    ensures SelectRule(indicator) == Level(1.0) <==>
      Contains(indicator, "GDP") && !Contains(indicator, "growth") && !Contains(indicator, "Inflation")
    ensures SelectRule(indicator) == Level(200.0) <==>
      !Contains(indicator, "GDP") && !Contains(indicator, "Inflation")
  {
  }

  lemma GdpCurrentRule()
    ensures SelectRule(GdpCurrent) == Level(1.0)
  {
    ContainsFromOccurrence(GdpCurrent, "GDP", 0);
    MissingCharNotContained(GdpCurrent, "growth", 'g');
    MissingCharNotContained(GdpCurrent, "Inflation", 'I');
  }

  lemma GdpGrowthRule()
    ensures SelectRule(GdpGrowth) == Growth
  {
    ContainsFromOccurrence(GdpGrowth, "GDP", 0);
    assert GdpGrowth[4..10] == "growth";
    ContainsFromOccurrence(GdpGrowth, "growth", 4);
  }

  lemma InflationCpiRule()
    ensures SelectRule(InflationCpi) == Inflation
  {
    MissingCharNotContained(InflationCpi, "GDP", 'G');
    ContainsFromOccurrence(InflationCpi, "Inflation", 0);
  }

  /** Each catalogue indicator gets the rule its name suggests. */
  lemma CatalogueRules()
    ensures SelectRule(GdpCurrent) == Level(1.0)
    ensures SelectRule(GdpGrowth) == Growth
    ensures SelectRule(InflationCpi) == Inflation
  {
    GdpCurrentRule();
    GdpGrowthRule();
    InflationCpiRule();
  }

  /** A name without a capital G or a capital I can match neither "GDP" nor "Inflation". */
  lemma NoCapitalsIsBase200(indicator: string)
    requires 'G' !in indicator && 'I' !in indicator
    ensures SelectRule(indicator) == Level(200.0)
  {
    MissingCharNotContained(indicator, "GDP", 'G');
    MissingCharNotContained(indicator, "Inflation", 'I');
  }

  lemma CapitalGrowthRule()
    ensures SelectRule("GDP Growth") == Level(1.0)
  {
    ContainsFromOccurrence("GDP Growth", "GDP", 0);
    MissingCharNotContained("GDP Growth", "growth", 'g');
    MissingCharNotContained("GDP Growth", "Inflation", 'I');
  }

  /** The tests are case-sensitive: names differing only in case can take other rules. */
  lemma SelectRuleCaseSensitive()
    ensures SelectRule("gdp growth (annual %)") == Level(200.0)
    ensures SelectRule("GDP Growth") == Level(1.0)
    ensures SelectRule("inflation") == Level(200.0)
  {
    NoCapitalsIsBase200("gdp growth (annual %)");
    CapitalGrowthRule();
    NoCapitalsIsBase200("inflation");
  }
}
